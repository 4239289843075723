/**
 MQTT topic filters (connector/mqtt/topicmatch.go): level splitting, the matching loop,
 its agreement with section 4.7 of MQTT 5.0, and when one filter covers another.
 */
module Topics {

  // ---- Levels ----

  /** strings.Split(s, "/"): always at least one level. */
  function Split(s: string): (levels: seq<string>)
    ensures |levels| >= 1
    ensures forall i :: 0 <= i < |levels| ==> '/' !in levels[i]
  {
    if s == [] then [[]]
    else
      var rest := Split(s[1..]);
      if s[0] == '/' then [[]] + rest else [[s[0]] + rest[0]] + rest[1..]
  }

  function Join(levels: seq<string>): string
    requires |levels| >= 1
  {
    if |levels| == 1 then levels[0] else levels[0] + "/" + Join(levels[1..])
  }

  lemma {:induction false} JoinSplit(s: string)
    ensures Join(Split(s)) == s
  {
    if s != [] {
      var rest := Split(s[1..]);
      JoinSplit(s[1..]);
      if s[0] == '/' {
        assert ([[]] + rest)[1..] == rest;
      } else {
        var out := [[s[0]] + rest[0]] + rest[1..];
        if |rest| == 1 {
          assert out == [[s[0]] + rest[0]];
        } else {
          assert out[1..] == rest[1..];
          assert Join(out) == [s[0]] + (rest[0] + "/" + Join(rest[1..]));
        }
      }
    }
  }

  lemma {:induction false} SplitSegment(level: string, tail: string)
    requires '/' !in level
    ensures Split(level + "/" + tail) == [level] + Split(tail)
    ensures Split(level) == [level]
  {
    if level == [] {
      assert level + "/" + tail == "/" + tail;
      assert ("/" + tail)[1..] == tail;
    } else {
      var s := level + "/" + tail;
      assert s[1..] == level[1..] + "/" + tail;
      SplitSegment(level[1..], tail);
      assert [level[0]] + level[1..] == level;
      assert ([level[1..]] + Split(tail))[1..] == Split(tail);
    }
  }

  lemma {:induction false} SplitJoin(levels: seq<string>)
    requires |levels| >= 1 && forall i :: 0 <= i < |levels| ==> '/' !in levels[i]
    ensures Split(Join(levels)) == levels
  {
    if |levels| == 1 {
      SplitSegment(levels[0], []);
    } else {
      SplitJoin(levels[1..]);
      SplitSegment(levels[0], Join(levels[1..]));
    }
  }

  lemma SplitInjective(a: string, b: string)
    requires Split(a) == Split(b)
    ensures a == b
  {
    JoinSplit(a);
    JoinSplit(b);
  }

  // ---- Matching ----

  predicate Dollar(level: string) {
    level != [] && level[0] == '$'
  }

  predicate Wild(level: string) {
    level == "+" || level == "#"
  }

  predicate HasWildcard(filter: string) {
    exists i :: 0 <= i < |Split(filter)| && Wild(Split(filter)[i])
  }

  /** The source's loop over filter levels, from level i. */
  predicate LevelLoop(f: seq<string>, t: seq<string>, i: nat)
    requires i <= |f|
    decreases |f| - i
  {
    if i == |f| then |f| == |t|
    else if f[i] == "#" then i == |f| - 1
    else if i >= |t| then false
    else if f[i] != "+" && f[i] != t[i] then false
    else LevelLoop(f, t, i + 1)
  }

  predicate FilterMatches(filter: string, topic: string) {
    filter == topic ||
    var f, t := Split(filter), Split(topic);
    !(Dollar(t[0]) && !Dollar(f[0])) && LevelLoop(f, t, 0)
  }

  predicate LevelMatches(fl: string, tl: string) {
    fl == "+" || fl == tl
  }

  /** The first k levels of f carry no '#' and match those of t. */
  ghost predicate HeadMatches(f: seq<string>, t: seq<string>, k: nat) {
    k <= |f| && k <= |t| && forall i :: 0 <= i < k ==> f[i] != "#" && LevelMatches(f[i], t[i])
  }

  /** Level matching without a loop: plain filters match level by level, a final '#' matches its parent level and all below. */
  ghost predicate LevelsMatch(f: seq<string>, t: seq<string>) {
    || (|f| == |t| && HeadMatches(f, t, |f|))
    || (f != [] && f[|f| - 1] == "#" && HeadMatches(f, t, |f| - 1))
  }

  lemma {:induction false} LoopFrom(f: seq<string>, t: seq<string>, i: nat)
    requires i <= |f| && HeadMatches(f, t, i)
    ensures LevelLoop(f, t, i) <==> LevelsMatch(f, t)
    decreases |f| - i
  {
    if i < |f| && f[i] != "#" && i < |t| && LevelMatches(f[i], t[i]) {
      LoopFrom(f, t, i + 1);
    }
  }

  /** '#' may only be the last level of a filter. */
  ghost predicate WellFormed(f: seq<string>) {
    forall i :: 0 <= i < |f| - 1 ==> f[i] != "#"
  }

  ghost predicate IsName(t: seq<string>) {
    forall i :: 0 <= i < |t| ==> !Wild(t[i])
  }

  /** Section 4.7 of MQTT 5.0: level matching, and no leading wildcard matches a topic name starting with '$'. */
  ghost predicate Section47(f: seq<string>, t: seq<string>)
    requires |f| >= 1 && |t| >= 1
  {
    LevelsMatch(f, t) && !(Wild(f[0]) && Dollar(t[0]))
  }

  /** The code decides exactly section 4.7 for every filter and every topic name. */
  lemma FilterMatchesIsSection47(filter: string, topic: string)
    requires WellFormed(Split(filter)) && IsName(Split(topic))
    ensures FilterMatches(filter, topic) <==> Section47(Split(filter), Split(topic))
  {
    var f, t := Split(filter), Split(topic);
    LoopFrom(f, t, 0);
    if filter == topic {
      assert HeadMatches(f, t, |f|);
    } else if LevelsMatch(f, t) && !Wild(f[0]) {
      assert f[0] == t[0] by {
        assert HeadMatches(f, t, 1);
      }
    }
  }

  /** A name rather than a filter: no level of it is a wildcard. */
  ghost predicate Exact(topic: string) {
    IsName(Split(topic))
  }

  /** The code's test tells filters from names. */
  lemma HasWildcardIff(topic: string)
    ensures HasWildcard(topic) <==> !Exact(topic)
  {
    var t := Split(topic);
    if i :| 0 <= i < |t| && Wild(t[i]) {
      assert !IsName(t);
    }
  }

  /** A filter without wildcards matches itself only. */
  lemma ExactMatchesItself(filter: string, topic: string)
    requires Exact(filter)
    ensures FilterMatches(filter, topic) <==> filter == topic
  {
    var f, t := Split(filter), Split(topic);
    LoopFrom(f, t, 0);
    if filter != topic && LevelsMatch(f, t) {
      assert f == t;
      SplitInjective(filter, topic);
    }
  }

  // ---- When a filter that matches another filter's text also covers it ----

  /** A '+' of f stands over the '#' of w; harmless only for "+/#" over "#", which match the same names. */
  ghost predicate PlusOverHash(f: seq<string>, w: seq<string>) {
    && (exists k :: 0 <= k < |f| && k < |w| && f[k] == "+" && w[k] == "#")
    && !(f == ["+", "#"] && w == ["#"])
  }

  lemma CoverLevels(f: seq<string>, w: seq<string>, t: seq<string>)
    requires LevelsMatch(f, w) && LevelsMatch(w, t) && !PlusOverHash(f, w) && |t| >= 1
    ensures LevelsMatch(f, t)
  {
    if |f| == |w| && HeadMatches(f, w, |f|) {
      assert forall i :: 0 <= i < |w| ==> w[i] != "#";
      assert HeadMatches(f, t, |f|);
    } else {
      var k := |f| - 1;
      if |w| == k && w != [] && w[k - 1] == "#" {
        assert f[k - 1] == "+";
        assert f == ["+", "#"];
      }
      assert k <= |t|;
      forall i | 0 <= i < k
        ensures f[i] != "#" && LevelMatches(f[i], t[i])
      {
        assert LevelMatches(f[i], w[i]);
      }
    }
  }

  /** Coverage is transitive outside the '+'-over-'#' case. */
  lemma CoverIsTransitive(filter: string, w: string, topic: string)
    requires FilterMatches(filter, w) && FilterMatches(w, topic)
    requires !PlusOverHash(Split(filter), Split(w))
    ensures FilterMatches(filter, topic)
  {
    if filter != w && w != topic {
      LoopFrom(Split(filter), Split(w), 0);
      LoopFrom(Split(w), Split(topic), 0);
      LoopFrom(Split(filter), Split(topic), 0);
      CoverLevels(Split(filter), Split(w), Split(topic));
    }
  }

  /** A concrete name under w: every wildcard becomes "x". */
  function Instance(w: seq<string>): (t: seq<string>)
    ensures |t| == |w|
  {
    seq(|w|, i requires 0 <= i < |w| => if Wild(w[i]) then "x" else w[i])
  }

  lemma InstanceMatches(f: seq<string>)
    requires f != [] && WellFormed(f)
    ensures IsName(Instance(f)) && LevelsMatch(f, Instance(f))
  {
    var t := Instance(f);
    assert HeadMatches(f, t, |f| - 1);
    if f[|f| - 1] != "#" {
      assert HeadMatches(f, t, |f|);
    }
  }

  lemma SomeNameMatches(filter: string) returns (topic: string)
    requires WellFormed(Split(filter))
    ensures Exact(topic) && FilterMatches(filter, topic)
  {
    var f := Split(filter);
    var t := Instance(f);
    topic := Join(t);
    InstanceMatches(f);
    assert forall i :: 0 <= i < |t| ==> '/' !in t[i];
    SplitJoin(t);
    LoopFrom(f, t, 0);
  }

  /** A well-formed filter matches some name besides itself exactly when it holds a wildcard. */
  lemma WildcardMatchesAnother(filter: string)
    requires WellFormed(Split(filter))
    ensures HasWildcard(filter) <==> exists topic :: Exact(topic) && topic != filter && FilterMatches(filter, topic)
  {
    HasWildcardIff(filter);
    if HasWildcard(filter) {
      var topic := SomeNameMatches(filter);
      assert topic != filter;
    } else {
      forall topic | FilterMatches(filter, topic)
        ensures topic == filter
      {
        ExactMatchesItself(filter, topic);
      }
    }
  }

  /** A '#' before the last level makes a filter match nothing but its own text. */
  lemma MisplacedHashMatchesItself(filter: string, topic: string)
    requires !WellFormed(Split(filter))
    ensures FilterMatches(filter, topic) <==> filter == topic
  {
    LoopFrom(Split(filter), Split(topic), 0);
  }

  lemma InstanceLevels(w: seq<string>, k: nat, tail: seq<string>)
    requires k == |w| - 1 && w[k] == "#" && WellFormed(w)
    requires forall i :: 0 <= i < |w| ==> '/' !in w[i]
    requires forall i :: 0 <= i < |tail| ==> tail[i] == "x"
    ensures var t := Instance(w[..k]) + tail;
            && LevelsMatch(w, t) && IsName(t)
            && (forall i :: 0 <= i < |t| ==> '/' !in t[i])
            && (k > 0 && Dollar(t[0]) ==> t[0] == w[0])
  {
    var t := Instance(w[..k]) + tail;
    forall i | 0 <= i < |t|
      ensures '/' !in t[i] && !Wild(t[i])
    {
    }
    assert HeadMatches(w, t, k);
  }

  lemma InstanceFits(w: seq<string>, k: nat, tail: seq<string>)
    requires k == |w| - 1 && w[k] == "#" && WellFormed(w)
    requires forall i :: 0 <= i < |w| ==> '/' !in w[i]
    requires k + |tail| >= 1 && forall i :: 0 <= i < |tail| ==> tail[i] == "x"
    ensures var t := Instance(w[..k]) + tail;
            && FilterMatches(Join(w), Join(t)) && IsName(t) && Split(Join(t)) == t
  {
    var t := Instance(w[..k]) + tail;
    InstanceLevels(w, k, tail);
    SplitJoin(t);
    SplitJoin(w);
    LoopFrom(w, t, 0);
    assert k == 0 ==> t[0] == "x";
  }

  /** A name that w reaches and f does not, whenever a '+' of f stands over the '#' of w. */
  lemma UncoveredName(filter: string, w: string) returns (topic: string)
    requires WellFormed(Split(w)) && FilterMatches(filter, w) && PlusOverHash(Split(filter), Split(w))
    ensures IsName(Split(topic)) && FilterMatches(w, topic) && !FilterMatches(filter, topic)
  {
    var f, l := Split(filter), Split(w);
    var k :| 0 <= k < |f| && k < |l| && f[k] == "+" && l[k] == "#";
    assert k == |l| - 1;
    LoopFrom(f, l, 0);
    JoinSplit(w);
    var tail := if |f| == |l| then ["x", "x"] else [];
    var t := Instance(l[..k]) + tail;
    assert k + |tail| >= 1;
    InstanceFits(l, k, tail);
    topic := Join(t);
    LoopFrom(f, t, 0);
    assert t != f by {
      assert Wild(f[k]);
    }
  }

  /** Exactly when matching another filter's text means covering every name it reaches. */
  lemma CoversIff(filter: string, w: string)
    requires WellFormed(Split(w)) && FilterMatches(filter, w)
    ensures (forall topic :: IsName(Split(topic)) && FilterMatches(w, topic) ==> FilterMatches(filter, topic))
            <==> !PlusOverHash(Split(filter), Split(w))
  {
    if PlusOverHash(Split(filter), Split(w)) {
      var topic := UncoveredName(filter, w);
    } else {
      forall topic | IsName(Split(topic)) && FilterMatches(w, topic)
        ensures FilterMatches(filter, topic)
      {
        CoverIsTransitive(filter, w, topic);
      }
    }
  }
}
