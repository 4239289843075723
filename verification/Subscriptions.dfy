/**
 The MQTT connector's live subscription state (connector/mqtt/connector.go): building a
 topic index, planning broker calls, and applying a new point set while Subscribe and
 Unsubscribe may fail part-way. The broker is the set of filters it holds with their options.
 */
module Subscriptions {
  import opened Topics

  datatype PointConfig = PointConfig(
    topic: string, deviceRef: string, unit: string, writable: bool,
    commandTopic: string, payloadTemplate: string, qos: nat, commandQos: nat)

  datatype StaticFilter = StaticFilter(filter: string, qos: nat)

  datatype SubOptions = SubOptions(qos: nat, noLocal: bool)

  type Subs = map<string, SubOptions>

  datatype TopicIndex = TopicIndex(points: map<string, PointConfig>, explicitSubs: Subs, revision: string)

  /** Zero falls back to 1. */
  function OrOne(qos: nat): nat {
    if qos == 0 then 1 else qos
  }

  /** The configured QoS, or 1 by default, and no echo of the connector's own writes: those of a writable point with one topic for both. */
  ghost predicate Asks(o: SubOptions, p: PointConfig) {
    && o.qos == (if p.qos != 0 then p.qos else 1)
    && (o.noLocal <==> p.writable && p.topic == p.commandTopic)
  }

  function OptionsFor(p: PointConfig): (o: SubOptions)
    ensures Asks(o, p)
  {
    SubOptions(OrOne(p.qos), p.writable && p.commandTopic == p.topic)
  }

  function ByTopic(points: seq<PointConfig>): map<string, PointConfig> {
    if points == [] then map[]
    else ByTopic(points[..|points| - 1])[points[|points| - 1].topic := points[|points| - 1]]
  }

  predicate StaticCover(topic: string, statics: seq<StaticFilter>) {
    exists i :: 0 <= i < |statics| && FilterMatches(statics[i].filter, topic)
  }

  ghost predicate PointCover(topic: string, topics: set<string>) {
    Exact(topic) && exists w :: w in topics && !Exact(w) && FilterMatches(w, topic)
  }

  /** What an index must be: every configured topic that nothing else reaches is subscribed on its own. */
  ghost predicate IndexInv(idx: TopicIndex, statics: seq<StaticFilter>) {
    && (forall t :: t in idx.points ==> idx.points[t].topic == t)
    && (forall t :: t in idx.explicitSubs <==>
                      t in idx.points && !StaticCover(t, statics) && !PointCover(t, idx.points.Keys))
    && (forall t :: t in idx.explicitSubs ==> Asks(idx.explicitSubs[t], idx.points[t]))
  }

  lemma {:induction false} ByTopicFacts(points: seq<PointConfig>)
    ensures forall i :: 0 <= i < |points| ==> points[i].topic in ByTopic(points)
    ensures forall t :: t in ByTopic(points) ==> ByTopic(points)[t].topic == t && ByTopic(points)[t] in points
  {
    if points != [] {
      ByTopicFacts(points[..|points| - 1]);
    }
  }

  /** Of several points with one topic the last one counts. */
  lemma {:induction false} LastOfTopic(points: seq<PointConfig>, i: nat)
    requires i < |points| && forall j :: i < j < |points| ==> points[j].topic != points[i].topic
    ensures points[i].topic in ByTopic(points) && ByTopic(points)[points[i].topic] == points[i]
  {
    if i < |points| - 1 {
      LastOfTopic(points[..|points| - 1], i);
    }
  }

  /** Is an exact topic reached by one of the wildcard points? */
  method CoveredByPoint(topic: string, wildcards: seq<PointConfig>) returns (covered: bool)
    ensures covered <==> exists i :: 0 <= i < |wildcards| && FilterMatches(wildcards[i].topic, topic)
  {
    for i := 0 to |wildcards|
      invariant forall j :: 0 <= j < i ==> !FilterMatches(wildcards[j].topic, topic)
    {
      if FilterMatches(wildcards[i].topic, topic) {
        return true;
      }
    }
    covered := false;
  }

  ghost predicate WildcardsOf(wildcards: seq<PointConfig>, topics: set<string>) {
    forall w :: (exists i :: 0 <= i < |wildcards| && wildcards[i].topic == w) <==> w in topics && !Exact(w)
  }

  method CollectWildcards(points: seq<PointConfig>) returns (wildcards: seq<PointConfig>)
    ensures WildcardsOf(wildcards, ByTopic(points).Keys)
  {
    wildcards := [];
    for i := 0 to |points|
      invariant WildcardsOf(wildcards, ByTopic(points[..i]).Keys)
    {
      assert points[..i + 1][..i] == points[..i];
      ghost var before := wildcards;
      HasWildcardIff(points[i].topic);
      if HasWildcard(points[i].topic) {
        wildcards := wildcards + [points[i]];
        assert wildcards[|before|] == points[i];
        assert forall j :: 0 <= j < |before| ==> wildcards[j] == before[j];
      }
      forall w
        ensures (exists j :: 0 <= j < |wildcards| && wildcards[j].topic == w) <==>
                w in ByTopic(points[..i + 1]).Keys && !Exact(w)
      {
        if j :| 0 <= j < |before| && before[j].topic == w {
          assert wildcards[j].topic == w;
        }
      }
    }
    assert points[..|points|] == points;
  }

  method NewTopicIndex(points: seq<PointConfig>, statics: seq<StaticFilter>, revision: string) returns (idx: TopicIndex)
    ensures idx.points == ByTopic(points) && idx.revision == revision
    ensures IndexInv(idx, statics)
  {
    var wildcards := CollectWildcards(points);
    ghost var topics := ByTopic(points).Keys;
    var subs: Subs := map[];
    var byTopic: map<string, PointConfig> := map[];
    for i := 0 to |points|
      invariant byTopic == ByTopic(points[..i])
      invariant forall t :: t in subs <==> t in byTopic && !StaticCover(t, statics) && !PointCover(t, topics)
      invariant forall t :: t in subs ==> Asks(subs[t], byTopic[t])
    {
      assert points[..i + 1][..i] == points[..i];
      var p := points[i];
      byTopic := byTopic[p.topic := p];
      var covered := StaticCover(p.topic, statics);
      HasWildcardIff(p.topic);
      if !covered && !HasWildcard(p.topic) {
        covered := CoveredByPoint(p.topic, wildcards);
        assert covered <==> PointCover(p.topic, topics);
      }
      if !covered {
        subs := subs[p.topic := OptionsFor(p)];
      }
    }
    assert points[..|points|] == points;
    ByTopicFacts(points);
    idx := TopicIndex(byTopic, subs, revision);
  }

  // ---- Reachability ----

  ghost predicate Reached(filters: set<string>, topic: string) {
    exists f :: f in filters && FilterMatches(f, topic)
  }

  ghost function StaticFilters(statics: seq<StaticFilter>): set<string> {
    set i | 0 <= i < |statics| :: statics[i].filter
  }

  /**
   An exact topic is lost: a wildcard point is relied on to reach it, but each such point is
   itself taken as covered by a static filter, and no static filter reaches the topic.
   */
  ghost predicate Lost(topic: string, points: set<string>, statics: seq<StaticFilter>) {
    && !StaticCover(topic, statics) && PointCover(topic, points)
    && forall w :: w in points && !Exact(w) && FilterMatches(w, topic) ==> StaticCover(w, statics)
  }

  /** With the static filters and the explicit topics subscribed, an exact configured topic is reached exactly when it is not lost. */
  lemma ReachedUnlessLost(idx: TopicIndex, statics: seq<StaticFilter>, topic: string)
    requires IndexInv(idx, statics) && topic in idx.points && Exact(topic)
    ensures Reached(StaticFilters(statics) + idx.explicitSubs.Keys, topic) <==> !Lost(topic, idx.points.Keys, statics)
  {
    var filters := StaticFilters(statics) + idx.explicitSubs.Keys;
    if StaticCover(topic, statics) {
      var i :| 0 <= i < |statics| && FilterMatches(statics[i].filter, topic);
      assert statics[i].filter in filters;
    } else if !PointCover(topic, idx.points.Keys) {
      assert topic in filters && FilterMatches(topic, topic);
    } else if Lost(topic, idx.points.Keys, statics) {
      LostIsUnreached(idx, statics, topic);
    } else {
      var w :| w in idx.points && !Exact(w) && FilterMatches(w, topic) && !StaticCover(w, statics);
      assert w in filters;
    }
  }

  lemma LostIsUnreached(idx: TopicIndex, statics: seq<StaticFilter>, topic: string)
    requires IndexInv(idx, statics) && topic in idx.points && Exact(topic) && Lost(topic, idx.points.Keys, statics)
    ensures forall f :: f in StaticFilters(statics) + idx.explicitSubs.Keys ==> !FilterMatches(f, topic)
  {
    forall f | f in StaticFilters(statics) + idx.explicitSubs.Keys
      ensures !FilterMatches(f, topic)
    {
      if f in idx.explicitSubs {
        if Exact(f) {
          ExactMatchesItself(f, topic);
        }
      } else {
        var i :| 0 <= i < |statics| && statics[i].filter == f;
      }
    }
  }

  /** A topic is lost only where a static filter matches a wildcard point's text by putting a plus over its hash. */
  lemma LossNeedsPlusOverHash(topic: string, points: set<string>, statics: seq<StaticFilter>) returns (w: string, i: nat)
    requires Lost(topic, points, statics)
    ensures w in points && i < |statics| && FilterMatches(statics[i].filter, w)
    ensures PlusOverHash(Split(statics[i].filter), Split(w))
  {
    w :| w in points && !Exact(w) && FilterMatches(w, topic);
    i :| 0 <= i < |statics| && FilterMatches(statics[i].filter, w);
    if !PlusOverHash(Split(statics[i].filter), Split(w)) {
      CoverIsTransitive(statics[i].filter, w, topic);
    }
  }

  /** An exact topic with its own subscription is delivered once: no other filter of the index reaches it. */
  lemma OwnSubscriptionIsAlone(idx: TopicIndex, statics: seq<StaticFilter>, topic: string, f: string)
    requires IndexInv(idx, statics) && topic in idx.explicitSubs && Exact(topic)
    requires f in StaticFilters(statics) + idx.explicitSubs.Keys && FilterMatches(f, topic)
    ensures f == topic
  {
    if f in idx.explicitSubs {
      assert !PointCover(topic, idx.points.Keys);
      ExactMatchesItself(f, topic);
    } else {
      var i :| 0 <= i < |statics| && statics[i].filter == f;
      assert StaticCover(topic, statics);
    }
  }

  lemma HoleLevels()
    ensures Split("a/+") == ["a", "+"] && Split("a/#") == ["a", "#"] && Split("a/b/c") == ["a", "b", "c"]
  {
    assert Join(["a", "+"]) == "a/+" && Join(["a", "#"]) == "a/#";
    assert Join(["b", "c"]) == "b/c";
    assert ["a", "b", "c"][1..] == ["b", "c"];
    assert Join(["a", "b", "c"]) == "a/b/c";
    SplitJoin(["a", "+"]);
    SplitJoin(["a", "#"]);
    SplitJoin(["a", "b", "c"]);
  }

  lemma HoleMatches()
    ensures FilterMatches("a/+", "a/#") && FilterMatches("a/#", "a/b/c") && !FilterMatches("a/+", "a/b/c")
    ensures !Exact("a/#") && Exact("a/b/c")
  {
    HoleLevels();
    assert HeadMatches(["a", "+"], ["a", "#"], 2);
    LoopFrom(["a", "+"], ["a", "#"], 0);
    assert HeadMatches(["a", "#"], ["a", "b", "c"], 1);
    LoopFrom(["a", "#"], ["a", "b", "c"], 0);
    LoopFrom(["a", "+"], ["a", "b", "c"], 0);
    assert Wild(["a", "#"][1]);
  }

  lemma HoleCovers(points: set<string>)
    requires points == {"a/#", "a/b/c"}
    ensures var statics := [StaticFilter("a/+", 1)];
            && (forall t :: t in points ==> StaticCover(t, statics) || PointCover(t, points))
            && Lost("a/b/c", points, statics) && !Reached({"a/+"}, "a/b/c")
  {
    HoleMatches();
    var statics := [StaticFilter("a/+", 1)];
    assert statics[0].filter == "a/+";
    assert "a/#" in points;
  }

  /** The hole: with the static filter a/+ the point a/# gets no subscription, and a/b/c reaches nobody. */
  lemma PlusOverHashLosesATopic(idx: TopicIndex)
    requires IndexInv(idx, [StaticFilter("a/+", 1)]) && idx.points.Keys == {"a/#", "a/b/c"}
    ensures idx.explicitSubs == map[] && !Reached({"a/+"}, "a/b/c") && Lost("a/b/c", idx.points.Keys, [StaticFilter("a/+", 1)])
  {
    HoleCovers(idx.points.Keys);
    AllCovered(idx, [StaticFilter("a/+", 1)]);
  }

  lemma AllCovered(idx: TopicIndex, statics: seq<StaticFilter>)
    requires IndexInv(idx, statics)
    requires forall t :: t in idx.points ==> StaticCover(t, statics) || PointCover(t, idx.points.Keys)
    ensures idx.explicitSubs == map[]
  {
    assert forall t :: t !in idx.explicitSubs;
  }

  // ---- Planning ----

  /** Subscribe what is newly explicit or changed; unsubscribe what was explicit and no longer is. */
  method PlanSubscriptions(current: TopicIndex, next: TopicIndex, changed: set<string>)
    returns (subscribe: Subs, unsubscribe: set<string>)
    ensures PlanOf(current, next, changed, subscribe, unsubscribe)
  {
    subscribe := map[];
    var rest := next.explicitSubs.Keys;
    while rest != {}
      invariant rest <= next.explicitSubs.Keys
      invariant forall t :: t in subscribe <==>
                  t in next.explicitSubs && t !in rest && (t !in current.explicitSubs || t in changed)
      invariant forall t :: t in subscribe ==> subscribe[t] == next.explicitSubs[t]
      decreases rest
    {
      var topic :| topic in rest;
      if topic !in current.explicitSubs || topic in changed {
        subscribe := subscribe[topic := next.explicitSubs[topic]];
      }
      rest := rest - {topic};
    }
    unsubscribe := {};
    rest := current.explicitSubs.Keys;
    while rest != {}
      invariant rest <= current.explicitSubs.Keys
      invariant unsubscribe == current.explicitSubs.Keys - rest - next.explicitSubs.Keys
      decreases rest
    {
      var topic :| topic in rest;
      if topic !in next.explicitSubs {
        unsubscribe := unsubscribe + {topic};
      }
      rest := rest - {topic};
    }
  }

  // ---- Applying a new point set ----

  /** The wire form of one subscription. */
  datatype SubscriptionSpec = SubscriptionSpec(
    topic: string, qos: nat, writable: bool, commandTopic: string, commandQos: nat,
    deviceRef: string, unit: string, payloadTemplate: string)

  function FromSpec(s: SubscriptionSpec): (p: PointConfig)
    ensures p.topic == s.topic && p.qos == s.qos && p.writable == s.writable
    ensures p.commandTopic == s.commandTopic && p.commandQos == s.commandQos
    ensures p.deviceRef == s.deviceRef && p.unit == s.unit && p.payloadTemplate == s.payloadTemplate
  {
    PointConfig(s.topic, s.deviceRef, s.unit, s.writable, s.commandTopic, s.payloadTemplate, s.qos, s.commandQos)
  }

  function FromSpecs(specs: seq<SubscriptionSpec>): (points: seq<PointConfig>)
    ensures |points| == |specs|
  {
    seq(|specs|, i requires 0 <= i < |specs| => FromSpec(specs[i]))
  }

  /** A topic, a command topic if there is anything to command, and no QoS beyond 1. */
  ghost predicate ValidPoint(p: PointConfig) {
    p.topic != "" && (p.writable ==> p.commandTopic != "") && p.qos <= 1 && p.commandQos <= 1
  }

  method ValidatePoints(points: seq<PointConfig>) returns (ok: bool)
    ensures ok <==> forall p :: p in points ==> ValidPoint(p)
  {
    for i := 0 to |points|
      invariant forall j :: 0 <= j < i ==> ValidPoint(points[j])
    {
      var p := points[i];
      if p.topic == "" || (p.writable && p.commandTopic == "") || p.qos > 1 || p.commandQos > 1 {
        assert points[i] in points;
        return false;
      }
    }
    ok := true;
  }

  ghost predicate ValidPoints(points: map<string, PointConfig>) {
    forall t :: t in points ==> ValidPoint(points[t])
  }

  lemma ValidMap(points: seq<PointConfig>, m: map<string, PointConfig>)
    requires ByTopic(points) == m && forall p :: p in points ==> p.topic in m && m[p.topic] == p
    ensures ValidPoints(m) <==> forall p :: p in points ==> ValidPoint(p)
  {
    ByTopicFacts(points);
  }

  datatype Reply =
    | NotConnected
    | Rejected
    | SubscribeFailed
    | Applied(added: set<string>, changed: set<string>, removed: set<string>, unsubscribed: bool)

  /** The points of the last request that validates, or those there were. */
  ghost function LastValid(requests: seq<(seq<SubscriptionSpec>, string)>, points: map<string, PointConfig>): map<string, PointConfig> {
    if requests == [] then points
    else
      var last := ByTopic(FromSpecs(requests[|requests| - 1].0));
      if ValidPoints(last) then last else LastValid(requests[..|requests| - 1], points)
  }

  /** The reply tells exactly which topics appeared, disappeared, or stayed with another configuration. */
  ghost predicate ReportsDiff(reply: Reply, before: map<string, PointConfig>, after: map<string, PointConfig>)
    requires reply.Applied?
  {
    && (forall t :: t in reply.added <==> t in after && t !in before)
    && (forall t :: t in reply.removed <==> t in before && t !in after)
    && (forall t :: t in reply.changed <==> t in before && t in after && before[t] != after[t])
  }

  function StaticSubs(statics: seq<StaticFilter>): Subs {
    if statics == [] then map[]
    else
      var last := statics[|statics| - 1];
      StaticSubs(statics[..|statics| - 1])[last.filter := SubOptions(last.qos, false)]
  }

  lemma {:induction false} StaticSubsKeys(statics: seq<StaticFilter>)
    ensures StaticSubs(statics).Keys == StaticFilters(statics)
  {
    if statics != [] {
      var front := statics[..|statics| - 1];
      StaticSubsKeys(front);
      assert forall i :: 0 <= i < |front| ==> front[i] == statics[i];
      assert StaticFilters(statics) == StaticFilters(front) + {statics[|statics| - 1].filter};
    }
  }

  /** A static filter is subscribed with its own QoS, the last one's if it is listed twice. */
  lemma {:induction false} LastOfFilter(statics: seq<StaticFilter>, i: nat)
    requires i < |statics| && forall j :: i < j < |statics| ==> statics[j].filter != statics[i].filter
    ensures var f := statics[i].filter; f in StaticSubs(statics) && StaticSubs(statics)[f] == SubOptions(statics[i].qos, false)
  {
    if i < |statics| - 1 {
      LastOfFilter(statics[..|statics| - 1], i);
    }
  }

  /** What the broker must hold for an index: the static filters and every explicit topic. */
  ghost predicate Holds(broker: Subs, idx: TopicIndex, statics: seq<StaticFilter>) {
    StaticFilters(statics) <= broker.Keys && idx.explicitSubs.Keys <= broker.Keys
  }

  function Exactly(idx: TopicIndex, statics: seq<StaticFilter>): Subs {
    StaticSubs(statics) + idx.explicitSubs
  }

  /** A static filter covers itself, so it is never subscribed (or unsubscribed) as a point's own topic. */
  lemma StaticsAreNeverExplicit(idx: TopicIndex, statics: seq<StaticFilter>)
    requires IndexInv(idx, statics)
    ensures idx.explicitSubs.Keys !! StaticFilters(statics)
  {
    forall f | f in StaticFilters(statics)
      ensures f !in idx.explicitSubs
    {
      var i :| 0 <= i < |statics| && statics[i].filter == f;
      assert FilterMatches(statics[i].filter, f);
      assert StaticCover(f, statics);
    }
  }

  lemma MovePlan(fixed: Subs, old': Subs, new': Subs, subscribe: Subs)
    requires fixed.Keys !! old'.Keys && fixed.Keys !! new'.Keys
    requires forall t :: t in subscribe ==> t in new' && subscribe[t] == new'[t]
    requires forall t :: t in new' && t !in subscribe ==> t in old' && old'[t] == new'[t]
    ensures fixed + old' + subscribe - (old'.Keys - new'.Keys) == fixed + new'
  {
    var a, b := fixed + old' + subscribe - (old'.Keys - new'.Keys), fixed + new';
    assert forall t :: t in a <==> t in b;
    assert forall t :: t in b ==> a[t] == b[t];
  }

  ghost predicate PlanOf(current: TopicIndex, next: TopicIndex, changed: set<string>, subscribe: Subs, unsubscribe: set<string>) {
    && (forall t :: t in subscribe <==> t in next.explicitSubs && (t !in current.explicitSubs || t in changed))
    && (forall t :: t in subscribe ==> subscribe[t] == next.explicitSubs[t])
    && unsubscribe == current.explicitSubs.Keys - next.explicitSubs.Keys
  }

  /** Every topic whose configuration differs counts as changed. */
  ghost predicate CoversChanges(current: TopicIndex, next: TopicIndex, changed: set<string>) {
    forall t :: t in next.points && t in current.points && current.points[t] != next.points[t] ==> t in changed
  }

  /** The exact broker state moves with the plan: options of unchanged topics are already right. */
  lemma PlanIsExact(current: TopicIndex, next: TopicIndex, statics: seq<StaticFilter>,
                    changed: set<string>, subscribe: Subs, unsubscribe: set<string>)
    requires IndexInv(current, statics) && IndexInv(next, statics) && CoversChanges(current, next, changed)
    requires PlanOf(current, next, changed, subscribe, unsubscribe)
    ensures Exactly(current, statics) + subscribe - unsubscribe == Exactly(next, statics)
    ensures unsubscribe !! StaticFilters(statics)
  {
    StaticsAreNeverExplicit(current, statics);
    StaticsAreNeverExplicit(next, statics);
    StaticSubsKeys(statics);
    MovePlan(StaticSubs(statics), current.explicitSubs, next.explicitSubs, subscribe);
  }

  /** Flattens a topic map into a slice in arbitrary order. */
  method PointConfigsOf(m: map<string, PointConfig>) returns (points: seq<PointConfig>)
    requires forall t :: t in m ==> m[t].topic == t
    ensures ByTopic(points) == m && forall p :: p in points ==> p.topic in m && m[p.topic] == p
  {
    points := [];
    var rest := m;
    while rest != map[]
      invariant forall t :: t in rest ==> t in m && rest[t] == m[t]
      invariant ByTopic(points).Keys == m.Keys - rest.Keys
      invariant forall t :: t in ByTopic(points) ==> ByTopic(points)[t] == m[t]
      invariant forall p :: p in points ==> p.topic in m && m[p.topic] == p
      decreases |rest|
    {
      var t :| t in rest;
      ghost var before := points;
      points := points + [rest[t]];
      assert points[..|points| - 1] == before;
      rest := rest - {t};
    }
  }

  /** The exact topics an index reaches, when it is subscribed. */
  ghost predicate Served(idx: TopicIndex, statics: seq<StaticFilter>, t: string) {
    t in idx.points && Exact(t) && !Lost(t, idx.points.Keys, statics)
  }

  /** The exact topics served both before and after are reached by this broker state. */
  ghost predicate ReachesKept(b: Subs, before: TopicIndex, after: TopicIndex, statics: seq<StaticFilter>) {
    forall t :: Served(before, statics, t) && Served(after, statics, t) ==> Reached(b.Keys, t)
  }

  /** From a broker that holds the old index to one that holds the new one. */
  lemma StepsAreGood(before: TopicIndex, after: TopicIndex, statics: seq<StaticFilter>, steps: seq<Subs>)
    requires IndexInv(before, statics) && IndexInv(after, statics) && 1 <= |steps| <= 2
    requires Holds(steps[0], before, statics) && Holds(steps[|steps| - 1], after, statics)
    ensures GoodSteps(steps, before, after, statics)
  {
    forall i | 0 <= i < |steps|
      ensures ReachesKept(steps[i], before, after, statics)
    {
      ServedAreReached(if i == 0 then before else after, statics, steps[i]);
    }
  }

  lemma ServedAreReached(idx: TopicIndex, statics: seq<StaticFilter>, b: Subs)
    requires IndexInv(idx, statics) && Holds(b, idx, statics)
    ensures forall t :: Served(idx, statics, t) ==> Reached(b.Keys, t)
  {
    forall t | Served(idx, statics, t)
      ensures Reached(b.Keys, t)
    {
      ReachedUnlessLost(idx, statics, t);
    }
  }

  /** Every broker state an apply passes through keeps the static filters and reaches the exact topics served before and after. */
  ghost predicate GoodSteps(steps: seq<Subs>, before: TopicIndex, after: TopicIndex, statics: seq<StaticFilter>) {
    && (forall i :: 0 <= i < |steps| ==> StaticFilters(statics) <= steps[i].Keys)
    && (forall i :: 0 <= i < |steps| ==> ReachesKept(steps[i], before, after, statics))
  }

  /** An index is held with its options: everything it stands for is at the broker as configured. */
  ghost predicate HeldAsConfigured(b: Subs, idx: TopicIndex, statics: seq<StaticFilter>) {
    forall t :: t in Exactly(idx, statics) ==> t in b && b[t] == Exactly(idx, statics)[t]
  }

  /** The explicit topics an apply retires, and those it adds. */
  ghost function Retired(current: TopicIndex, next: TopicIndex): set<string> {
    current.explicitSubs.Keys - next.explicitSubs.Keys
  }

  ghost function Added(current: TopicIndex, next: TopicIndex): set<string> {
    next.explicitSubs.Keys - current.explicitSubs.Keys
  }

  /** Topics explicit before and after have the same options. */
  ghost predicate SameOptions(current: TopicIndex, next: TopicIndex) {
    forall t :: t in current.explicitSubs && t in next.explicitSubs ==> current.explicitSubs[t] == next.explicitSubs[t]
  }

  // ---- A reconnect inside an apply ----

  /** What becomes of the session: kept over the reconnect, or lost before or within the apply. */
  datatype Loss = Kept | LostBefore | LostAfterSubscribe | LostAfterUnsubscribe

  /** Where the Subscribe of the handler of the new connection lands; it has loaded the index before the commit. */
  datatype Slot = AfterSubscribe | AfterUnsubscribe | AfterCommit

  /** The session that received the apply's Subscribe is gone. */
  predicate PlanLost(loss: Loss) {
    loss == LostAfterSubscribe || loss == LostAfterUnsubscribe
  }

  /** Every topic of the old index that is not retired is at the broker with its old options. */
  ghost predicate OldTopics(b: Subs, current: TopicIndex, next: TopicIndex, statics: seq<StaticFilter>) {
    forall t :: t in Exactly(current, statics) && t !in Retired(current, next) ==> t in b && b[t] == Exactly(current, statics)[t]
  }

  /** The topics the apply adds are at the broker as planned, or all gone with the session. */
  ghost predicate NewTopics(b: Subs, current: TopicIndex, next: TopicIndex, lost: bool) {
    forall t :: t in Added(current, next) ==> if lost then t !in b else t in b && b[t] == next.explicitSubs[t]
  }

  /** The next index is served with its options: no option changed, and no added topic was lost. */
  ghost predicate Unharmed(current: TopicIndex, next: TopicIndex, lost: bool) {
    SameOptions(current, next) && (lost ==> Added(current, next) == {})
  }

  /** How such a broker serves the next index. */
  ghost predicate ServesIff(b: Subs, current: TopicIndex, next: TopicIndex, statics: seq<StaticFilter>, lost: bool) {
    && (Holds(b, next, statics) <==> (lost ==> Added(current, next) == {}))
    && (HeldAsConfigured(b, next, statics) <==> Unharmed(current, next, lost))
    && (b == Exactly(next, statics) <==> Unharmed(current, next, lost) && b.Keys <= Exactly(next, statics).Keys)
  }

  lemma ReconnectServes(b: Subs, current: TopicIndex, next: TopicIndex, statics: seq<StaticFilter>, lost: bool)
    requires IndexInv(current, statics) && IndexInv(next, statics)
    requires OldTopics(b, current, next, statics) && NewTopics(b, current, next, lost)
    ensures ServesIff(b, current, next, statics, lost)
  {
    StaticSubsKeys(statics);
    StaticsAreNeverExplicit(current, statics);
    StaticsAreNeverExplicit(next, statics);
    MixedAtBroker(b, current, next, statics, lost);
    BrokerServes(b, current, next, statics, lost);
  }

  lemma MixedAtBroker(b: Subs, current: TopicIndex, next: TopicIndex, statics: seq<StaticFilter>, lost: bool)
    requires StaticSubs(statics).Keys !! current.explicitSubs.Keys && StaticSubs(statics).Keys !! next.explicitSubs.Keys
    requires OldTopics(b, current, next, statics) && NewTopics(b, current, next, lost)
    ensures Mixed(StaticSubs(statics), current.explicitSubs, next.explicitSubs, b, lost)
  {
    var fixed, held := StaticSubs(statics), Exactly(current, statics);
    assert forall t :: t in fixed ==> t in held && held[t] == fixed[t] && t !in Retired(current, next);
    assert forall t :: t in current.explicitSubs ==> t in held && held[t] == current.explicitSubs[t];
    assert forall t :: t in next.explicitSubs && t !in current.explicitSubs ==> t in Added(current, next);
  }

  lemma BrokerServes(b: Subs, current: TopicIndex, next: TopicIndex, statics: seq<StaticFilter>, lost: bool)
    requires StaticSubs(statics).Keys == StaticFilters(statics)
    requires Mixed(StaticSubs(statics), current.explicitSubs, next.explicitSubs, b, lost)
    ensures ServesIff(b, current, next, statics, lost)
  {
    MixedKeys(StaticSubs(statics), current.explicitSubs, next.explicitSubs, b, lost);
    MixedServes(StaticSubs(statics), current.explicitSubs, next.explicitSubs, b, lost);
    SameMap(b, Exactly(next, statics));
    assert HeldAsConfigured(b, next, statics) <==> Entries(b, Exactly(next, statics));
  }

  /** The handler's Subscribe brings the whole old index back and touches nothing the apply adds. */
  lemma HandlerSubscribes(b: Subs, current: TopicIndex, next: TopicIndex, statics: seq<StaticFilter>, lost: bool)
    requires Added(current, next) !! Exactly(current, statics).Keys && NewTopics(b, current, next, lost)
    ensures var after := b + Exactly(current, statics);
            OldTopics(after, current, next, statics) && NewTopics(after, current, next, lost)
  {
  }

  /** Retiring leaves what is not retired. */
  lemma Retiring(before: Subs, after: Subs, current: TopicIndex, next: TopicIndex, statics: seq<StaticFilter>, lost: bool)
    requires forall t :: t in after ==> t in before && after[t] == before[t]
    requires before.Keys - Retired(current, next) <= after.Keys
    requires NewTopics(before, current, next, lost)
    ensures NewTopics(after, current, next, lost)
    ensures OldTopics(before, current, next, statics) ==> OldTopics(after, current, next, statics)
  {
    assert forall t :: t in before && t !in Retired(current, next) ==> t in after;
    assert forall t :: t in Added(current, next) ==> t !in Retired(current, next);
  }

  /** When the broker ends up with exactly the next index: a late handler must have found nothing retired. */
  lemma ReconnectIsExact(b: Subs, current: TopicIndex, next: TopicIndex, statics: seq<StaticFilter>, lost: bool, late: bool)
    requires IndexInv(current, statics) && IndexInv(next, statics) && ServesIff(b, current, next, statics, lost)
    requires b.Keys <= Exactly(current, statics).Keys + next.explicitSubs.Keys
    requires if late then Retired(current, next) <= b.Keys else b.Keys !! Retired(current, next)
    ensures b == Exactly(next, statics) <==> Unharmed(current, next, lost) && (!late || Retired(current, next) == {})
  {
    ReconnectKeys(b, current, next, statics);
    assert late ==> (b.Keys !! Retired(current, next) <==> Retired(current, next) == {});
  }

  lemma AddedApart(current: TopicIndex, next: TopicIndex, statics: seq<StaticFilter>)
    requires IndexInv(current, statics) && IndexInv(next, statics)
    ensures Added(current, next) !! Exactly(current, statics).Keys && Added(current, next) !! Retired(current, next)
    ensures Retired(current, next) <= Exactly(current, statics).Keys
  {
    StaticSubsKeys(statics);
    StaticsAreNeverExplicit(next, statics);
    assert Exactly(current, statics).Keys == StaticFilters(statics) + current.explicitSubs.Keys;
  }

  /** With nothing but the two indexes' topics at the broker, the next index's are exceeded by retired ones only. */
  lemma ReconnectKeys(b: Subs, current: TopicIndex, next: TopicIndex, statics: seq<StaticFilter>)
    requires IndexInv(current, statics) && IndexInv(next, statics)
    ensures b.Keys <= Exactly(current, statics).Keys + next.explicitSubs.Keys ==>
              (b.Keys <= Exactly(next, statics).Keys <==> b.Keys !! Retired(current, next))
  {
    StaticSubsKeys(statics);
    StaticsAreNeverExplicit(current, statics);
    assert Exactly(current, statics).Keys == StaticFilters(statics) + current.explicitSubs.Keys;
    assert Exactly(next, statics).Keys == StaticFilters(statics) + next.explicitSubs.Keys;
  }

  /** The same on maps: `b` has the fixed and the kept entries of the old map, and the new ones unless they are lost. */
  ghost predicate Mixed(fixed: Subs, old': Subs, new': Subs, b: Subs, lost: bool) {
    && fixed.Keys !! old'.Keys && fixed.Keys !! new'.Keys
    && (forall t :: t in fixed ==> t in b && b[t] == fixed[t])
    && (forall t :: t in old' && t in new' ==> t in b && b[t] == old'[t])
    && (forall t :: t in new' && t !in old' ==> if lost then t !in b else t in b && b[t] == new'[t])
  }

  lemma MixedKeys(fixed: Subs, old': Subs, new': Subs, b: Subs, lost: bool)
    requires Mixed(fixed, old', new', b, lost)
    ensures fixed.Keys <= b.Keys && new'.Keys <= b.Keys <==> (lost ==> new'.Keys - old'.Keys == {})
  {
    assert forall t :: t in new' && t !in old' ==> t in new'.Keys - old'.Keys;
    assert forall t :: t in new'.Keys - old'.Keys ==> t in new' && (lost ==> t !in b);
  }

  ghost predicate Entries(b: Subs, want: Subs) {
    forall t :: t in want ==> t in b && b[t] == want[t]
  }

  lemma MixedServes(fixed: Subs, old': Subs, new': Subs, b: Subs, lost: bool)
    requires Mixed(fixed, old', new', b, lost)
    ensures Entries(b, fixed + new') <==>
            (forall t :: t in old' && t in new' ==> old'[t] == new'[t]) && (lost ==> new'.Keys - old'.Keys == {})
  {
    var want := fixed + new';
    if (forall t :: t in old' && t in new' ==> old'[t] == new'[t]) && (lost ==> new'.Keys - old'.Keys == {}) {
      forall t | t in want
        ensures t in b && b[t] == want[t]
      {
        if t in new' {
          assert t !in old' ==> t in new'.Keys - old'.Keys;
        }
      }
    }
    if Entries(b, want) {
      forall t | t in old' && t in new'
        ensures old'[t] == new'[t]
      {
        assert t in want && want[t] == new'[t];
      }
      forall t | t in new' && t !in old'
        ensures !lost
      {
        assert t in want;
      }
    }
  }

  lemma SameMap(b: Subs, want: Subs)
    ensures b == want <==> Entries(b, want) && b.Keys <= want.Keys
  {
    if Entries(b, want) && b.Keys <= want.Keys {
      assert b.Keys == want.Keys;
    }
  }

  /** Subscribing an index over whatever is there holds it with its options, and leaves it alone if nothing else was there. */
  lemma Resubscribed(b: Subs, idx: TopicIndex, statics: seq<StaticFilter>)
    ensures var after := b + Exactly(idx, statics);
            && Holds(after, idx, statics) && HeldAsConfigured(after, idx, statics)
            && (b.Keys <= Exactly(idx, statics).Keys ==> after == Exactly(idx, statics))
  {
    StaticSubsKeys(statics);
    assert Exactly(idx, statics).Keys == StaticFilters(statics) + idx.explicitSubs.Keys;
  }

  class Connector {
    const statics: seq<StaticFilter>
    var topics: TopicIndex
    var broker: Subs
    var connected: bool  // the latest connection has its subscriptions
    ghost var clean: bool  // nothing but the committed index is or may be at the broker
    ghost var failures: nat  // how many broker calls have failed

    /** While connected, the broker holds the static filters and every explicit topic of the committed index. */
    ghost predicate Valid()
      reads this
    {
      && IndexInv(topics, statics) && (connected ==> Holds(broker, topics, statics))
      && (clean ==> broker == Exactly(topics, statics))
    }

    /** Startup: the initial index, not connected yet, over whatever a resumed session of an earlier process left at the broker. */
    constructor (points: seq<PointConfig>, statics: seq<StaticFilter>, leftover: Subs)
      ensures Valid() && this.statics == statics && topics.points == ByTopic(points) && broker == leftover && !connected && failures == 0
    {
      this.statics := statics;
      var idx := NewTopicIndex(points, statics, "");
      topics, broker, clean, connected, failures := idx, leftover, false, false, 0;
    }

    /** A Subscribe packet that fails may still have been granted in part; an empty one is not sent. */
    method Subscribe(subs: Subs) returns (ok: bool)
      modifies this`broker, this`clean, this`failures
      ensures failures == old(failures) + (if ok then 0 else 1)
      ensures old(broker).Keys <= broker.Keys <= old(broker).Keys + subs.Keys
      ensures if ok then broker == old(broker) + subs && clean == old(clean) else !clean
      ensures subs == map[] ==> ok
    {
      ok := *;
      if ok || subs == map[] {
        ok := true;
        broker := broker + subs;
      } else {
        var granted: set<string> := *;
        broker := broker + (map t | t in subs && t in granted :: subs[t]);
        clean, failures := false, failures + 1;
      }
    }

    method Unsubscribe(topics: set<string>) returns (ok: bool)
      modifies this`broker, this`clean, this`failures
      ensures failures == old(failures) + (if ok then 0 else 1)
      ensures old(broker).Keys - topics <= broker.Keys && forall t :: t in broker ==> t in old(broker) && broker[t] == old(broker)[t]
      ensures if ok then broker == old(broker) - topics && clean == old(clean) else !clean
      ensures topics == {} ==> ok
    {
      ok := *;
      if ok || topics == {} {
        ok := true;
        broker := broker - topics;
      } else {
        var dropped: set<string> := *;
        broker := broker - (topics * dropped);
        clean, failures := false, failures + 1;
      }
    }

    /**
     Subscribe first, unsubscribe second, commit last. Whatever fails, the broker keeps the
     static filters and every explicit topic of the committed index, at each step.
     */
    method Converge(next: TopicIndex, changed: set<string>) returns (subscribed: bool, unsubscribed: bool, ghost steps: seq<Subs>)
      requires Valid() && IndexInv(next, statics) && CoversChanges(topics, next, changed)
      modifies this`topics, this`broker, this`clean, this`failures
      ensures Valid() && topics == if subscribed then next else old(topics)
      ensures subscribed && unsubscribed ==> clean == old(clean)
      ensures old(failures) <= failures && (failures == old(failures) <==> subscribed && unsubscribed)
      ensures connected ==> GoodSteps(steps, old(topics), topics, statics)
    {
      var toSubscribe, toUnsubscribe := PlanSubscriptions(topics, next, changed);
      PlanIsExact(topics, next, statics, changed, toSubscribe, toUnsubscribe);
      unsubscribed := false;
      subscribed := Subscribe(toSubscribe);
      steps := [broker];
      if subscribed {
        unsubscribed := Unsubscribe(toUnsubscribe);
        steps := steps + [broker];
        topics := next;
      }
      if connected {
        StepsAreGood(old(topics), topics, statics, steps);
      }
    }

    /** Validates, diffs, converges; exact topics served before and after are reached throughout. */
    method ApplySubscriptions(hasClient: bool, specs: seq<SubscriptionSpec>, revision: string)
      returns (reply: Reply, ghost steps: seq<Subs>)
      requires Valid()
      modifies this`topics, this`broker, this`clean, this`failures
      ensures Valid() && old(failures) <= failures
      ensures failures == old(failures) ==>
                clean == old(clean) && (reply.NotConnected? || reply.Rejected? || (reply.Applied? && reply.unsubscribed))
      ensures reply.NotConnected? <==> !hasClient
      ensures reply.NotConnected? || reply.Rejected? ==> unchanged(this)
      ensures reply.Rejected? <==> hasClient && !ValidPoints(ByTopic(FromSpecs(specs)))
      ensures !reply.Applied? ==> topics == old(topics)
      ensures reply.Applied? ==> topics.points == ByTopic(FromSpecs(specs)) && topics.revision == revision
      ensures reply.Applied? ==> ReportsDiff(reply, old(topics).points, topics.points)
      ensures reply.Applied? && reply.unsubscribed ==> clean == old(clean)
      ensures connected ==> GoodSteps(steps, old(topics), topics, statics)
    {
      if !hasClient {
        return NotConnected, [];
      }
      var desired := ByTopic(FromSpecs(specs));
      ByTopicFacts(FromSpecs(specs));
      var points := PointConfigsOf(desired);
      var ok := ValidatePoints(points);
      ValidMap(points, desired);
      if !ok {
        return Rejected, [];
      }
      var added := desired.Keys - topics.points.Keys;
      var removed := topics.points.Keys - desired.Keys;
      var changed := set t | t in desired && t in topics.points && topics.points[t] != desired[t];
      var next := NewTopicIndex(points, statics, revision);
      var subscribed, unsubscribed;
      subscribed, unsubscribed, steps := Converge(next, changed);
      reply := if subscribed then Applied(added, changed, removed, unsubscribed) else SubscribeFailed;
    }

    /**
     Any sequence of applies: the broker holds the committed index throughout. If no broker call
     failed, the last valid request is committed, and the broker holds exactly it if it was
     clean to begin with.
     */
    method Serve(requests: seq<(seq<SubscriptionSpec>, string)>)
      requires Valid()
      modifies this`topics, this`broker, this`clean, this`failures
      ensures Valid() && old(failures) <= failures
      ensures failures == old(failures) ==>
                && topics.points == LastValid(requests, old(topics).points)
                && (old(clean) ==> broker == Exactly(topics, statics))
    {
      for i := 0 to |requests|
        invariant Valid() && old(failures) <= failures
        invariant failures == old(failures) ==> topics.points == LastValid(requests[..i], old(topics).points) && clean == old(clean)
      {
        assert requests[..i + 1][..i] == requests[..i];
        ghost var steps;
        var reply;
        reply, steps := ApplySubscriptions(true, requests[i].0, requests[i].1);
      }
      assert requests[..|requests|] == requests;
    }

    /**
     A new connection re-subscribes the committed index, on a kept or a lost session. The
     Subscribe may fail, in part, and the connector then disconnects and tries again.
     */
    method Reconnect() returns (ok: bool, sessionKept: bool)
      requires Valid()
      modifies this`broker, this`clean, this`connected, this`failures
      ensures failures == old(failures) + (if ok then 0 else 1)
      ensures Valid() && connected == ok && (ok ==> HeldAsConfigured(broker, topics, statics))
      ensures ok && (old(broker).Keys <= Exactly(topics, statics).Keys || !sessionKept) ==> clean && broker == Exactly(topics, statics)
    {
      sessionKept := *;
      if !sessionKept {
        broker := map[];
      }
      ghost var covered := broker.Keys <= Exactly(topics, statics).Keys;
      ok := Subscribe(Exactly(topics, statics));
      connected, clean := ok, ok && covered;
      if ok {
        Resubscribed(if sessionKept then old(broker) else map[], topics, statics);
      }
    }

    /**
     A new connection whose handler runs inside an apply: it does not take the apply lock, has
     loaded the old index, and re-subscribes it on a kept or a new session somewhere after the
     apply's own Subscribe. The broker then serves the committed index with its options exactly
     when no explicit topic changed its options and no added one was lost with the session, and
     equals it exactly when moreover the handler did not bring a retired topic back.
     */
    method ApplyAcrossReconnect(next: TopicIndex, changed: set<string>, loss: Loss, slot: Slot)
      returns (subscribed: bool, resubscribed: bool, unsubscribed: bool)
      requires Valid() && IndexInv(next, statics) && CoversChanges(topics, next, changed)
      requires loss == LostAfterUnsubscribe ==> slot != AfterSubscribe
      modifies this`topics, this`broker, this`clean, this`connected, this`failures
      ensures topics == (if subscribed then next else old(topics)) && old(failures) <= failures
      ensures failures == old(failures) ==> subscribed && resubscribed && unsubscribed
      ensures subscribed && resubscribed ==>
                && OldTopics(broker, old(topics), next, statics)
                && ServesIff(broker, old(topics), next, statics, PlanLost(loss))
      ensures subscribed && resubscribed && slot != AfterSubscribe ==> Retired(old(topics), next) <= broker.Keys
      ensures (&& subscribed && resubscribed && (unsubscribed || slot != AfterSubscribe)
               && (loss != Kept || old(broker).Keys <= Exactly(old(topics), statics).Keys)) ==>
                (broker == Exactly(next, statics) <==>
                   Unharmed(old(topics), next, PlanLost(loss)) && (slot == AfterSubscribe || Retired(old(topics), next) == {}))
    {
      var loaded := Exactly(topics, statics);
      var toSubscribe, toUnsubscribe := PlanSubscriptions(topics, next, changed);
      resubscribed, unsubscribed := false, false;
      subscribed := SubscribePlan(toSubscribe, next, loss);
      if !subscribed {
        return;
      }
      resubscribed, unsubscribed := Reconnected(loaded, toUnsubscribe, next, loss, slot);
      connected, topics := resubscribed, next;
    }

    /** The rest of the apply, before its commit, with what the handler left behind. */
    method Reconnected(loaded: Subs, retired: set<string>, ghost next: TopicIndex, loss: Loss, slot: Slot)
      returns (resubscribed: bool, unsubscribed: bool)
      requires IndexInv(topics, statics) && IndexInv(next, statics)
      requires loaded == Exactly(topics, statics) && retired == Retired(topics, next)
      requires NewTopics(broker, topics, next, loss == LostAfterSubscribe) && (loss == LostAfterUnsubscribe ==> slot != AfterSubscribe)
      modifies this`broker, this`clean, this`failures
      ensures failures == old(failures) + (if resubscribed then 0 else 1) + (if unsubscribed then 0 else 1)
      ensures resubscribed ==>
                OldTopics(broker, topics, next, statics) && ServesIff(broker, topics, next, statics, PlanLost(loss))
      ensures resubscribed && slot != AfterSubscribe ==> retired <= broker.Keys
      ensures (&& resubscribed && (unsubscribed || slot != AfterSubscribe)
               && (loss == LostAfterUnsubscribe || old(broker).Keys <= loaded.Keys + next.explicitSubs.Keys)) ==>
                (broker == Exactly(next, statics) <==>
                   Unharmed(topics, next, PlanLost(loss)) && (slot == AfterSubscribe || retired == {}))
    {
      AddedApart(topics, next, statics);
      resubscribed, unsubscribed := HandleAndRetire(loaded, retired, next, loss, slot);
      if resubscribed {
        ReconnectServes(broker, topics, next, statics, PlanLost(loss));
        if (loss == LostAfterUnsubscribe || old(broker).Keys <= loaded.Keys + next.explicitSubs.Keys) && (unsubscribed || slot != AfterSubscribe) {
          ReconnectIsExact(broker, topics, next, statics, PlanLost(loss), slot != AfterSubscribe);
        }
      }
    }

    method HandleAndRetire(loaded: Subs, retired: set<string>, ghost next: TopicIndex, loss: Loss, slot: Slot)
      returns (resubscribed: bool, unsubscribed: bool)
      requires Added(topics, next) !! loaded.Keys && retired <= loaded.Keys
      requires loaded == Exactly(topics, statics) && retired == Retired(topics, next)
      requires NewTopics(broker, topics, next, loss == LostAfterSubscribe) && (loss == LostAfterUnsubscribe ==> slot != AfterSubscribe)
      modifies this`broker, this`clean, this`failures
      ensures failures == old(failures) + (if resubscribed then 0 else 1) + (if unsubscribed then 0 else 1)
      ensures resubscribed ==> OldTopics(broker, topics, next, statics) && NewTopics(broker, topics, next, PlanLost(loss))
      ensures broker.Keys <= (if loss == LostAfterUnsubscribe then {} else old(broker).Keys) + loaded.Keys
      ensures if slot == AfterSubscribe then unsubscribed ==> broker.Keys !! retired else resubscribed ==> retired <= broker.Keys
    {
      if slot == AfterSubscribe {
        resubscribed, unsubscribed := HandleThenRetire(loaded, retired, next, PlanLost(loss));
      } else {
        resubscribed, unsubscribed := RetireThenHandle(loaded, retired, next, loss);
      }
    }

    /** The apply's own Subscribe, with the session possibly lost before or after it. */
    method SubscribePlan(plan: Subs, ghost next: TopicIndex, loss: Loss) returns (subscribed: bool)
      requires forall t :: t in plan ==> t in next.explicitSubs && plan[t] == next.explicitSubs[t]
      requires Added(topics, next) <= plan.Keys
      modifies this`broker, this`clean, this`failures
      ensures failures == old(failures) + (if subscribed then 0 else 1)
      ensures subscribed ==> NewTopics(broker, topics, next, loss == LostAfterSubscribe)
      ensures broker.Keys <= (if loss == LostBefore || loss == LostAfterSubscribe then {} else old(broker).Keys) + next.explicitSubs.Keys
    {
      if loss == LostBefore {
        broker := map[];
      }
      subscribed := Subscribe(plan);
      if loss == LostAfterSubscribe {
        broker := map[];
      }
    }

    /** The handler's Subscribe comes before the apply's Unsubscribe. */
    method HandleThenRetire(loaded: Subs, retired: set<string>, ghost next: TopicIndex, ghost lost: bool)
      returns (resubscribed: bool, unsubscribed: bool)
      requires Added(topics, next) !! loaded.Keys
      requires loaded == Exactly(topics, statics) && retired == Retired(topics, next) && NewTopics(broker, topics, next, lost)
      modifies this`broker, this`clean, this`failures
      ensures failures == old(failures) + (if resubscribed then 0 else 1) + (if unsubscribed then 0 else 1)
      ensures resubscribed ==> OldTopics(broker, topics, next, statics) && NewTopics(broker, topics, next, lost)
      ensures broker.Keys <= old(broker).Keys + loaded.Keys
      ensures unsubscribed ==> broker.Keys !! retired
    {
      HandlerSubscribes(broker, topics, next, statics, lost);
      resubscribed := Subscribe(loaded);
      ghost var before := broker;
      unsubscribed := Unsubscribe(retired);
      if resubscribed {
        Retiring(before, broker, topics, next, statics, lost);
      }
    }

    /** The handler's Subscribe comes after the apply's Unsubscribe, before or after the commit. */
    method RetireThenHandle(loaded: Subs, retired: set<string>, ghost next: TopicIndex, loss: Loss)
      returns (resubscribed: bool, unsubscribed: bool)
      requires Added(topics, next) !! loaded.Keys && retired <= loaded.Keys
      requires loaded == Exactly(topics, statics) && retired == Retired(topics, next)
      requires NewTopics(broker, topics, next, loss == LostAfterSubscribe)
      modifies this`broker, this`clean, this`failures
      ensures failures == old(failures) + (if resubscribed then 0 else 1) + (if unsubscribed then 0 else 1)
      ensures resubscribed ==> OldTopics(broker, topics, next, statics) && NewTopics(broker, topics, next, PlanLost(loss))
      ensures broker.Keys <= old(broker).Keys + loaded.Keys
      ensures resubscribed ==> retired <= broker.Keys
      ensures loss == LostAfterUnsubscribe ==> broker.Keys <= loaded.Keys
    {
      unsubscribed := Unsubscribe(retired);
      Retiring(old(broker), broker, topics, next, statics, loss == LostAfterSubscribe);
      if loss == LostAfterUnsubscribe {
        broker := map[];
      }
      HandlerSubscribes(broker, topics, next, statics, PlanLost(loss));
      resubscribed := Subscribe(loaded);
    }
  }

  lemma LonePoint(idx: TopicIndex, p: PointConfig)
    requires IndexInv(idx, []) && idx.points == ByTopic([p])
    ensures idx.points == map[p.topic := p] && idx.explicitSubs == map[p.topic := OptionsFor(p)]
  {
    assert [p][..0] == [];
    assert ByTopic([p]) == map[p.topic := p];
  }

  const QUIET: PointConfig := PointConfig("a", "", "", false, "", "", 1, 0)
  const LOUD: PointConfig := PointConfig("a", "", "", true, "a", "", 1, 1)

  /**
   A point that becomes writable over its own topic. Wherever the handler lands, session kept
   or lost, and with no call failing, the broker still echoes its commands.
   */
  method EchoAfterReconnect(loss: Loss, slot: Slot) returns (c: Connector)
    requires loss == LostAfterUnsubscribe ==> slot != AfterSubscribe
    ensures c.failures == 0 ==>
              && "a" in c.topics.explicitSubs && c.topics.explicitSubs["a"].noLocal
              && "a" in c.broker && !c.broker["a"].noLocal
  {
    c := new Connector([QUIET], [], map[]);
    var next := NewTopicIndex([LOUD], [], "r");
    LonePoint(c.topics, QUIET);
    LonePoint(next, LOUD);
    var subscribed, resubscribed, unsubscribed := c.ApplyAcrossReconnect(next, {"a"}, loss, slot);
  }

  /** A removed point whose handler lands late: its topic is back at the broker with no call failing. */
  method RetiredComesBack(loss: Loss, slot: Slot) returns (c: Connector)
    requires slot != AfterSubscribe
    ensures c.failures == 0 ==> c.topics.explicitSubs == map[] && "a" in c.broker
  {
    c := new Connector([QUIET], [], map[]);
    var next := NewTopicIndex([], [], "r");
    LonePoint(c.topics, QUIET);
    var subscribed, resubscribed, unsubscribed := c.ApplyAcrossReconnect(next, {}, loss, slot);
  }
}
