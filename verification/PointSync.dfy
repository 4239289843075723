/**
 Incremental Point List synchronisation (internal/pointsync/loop.go) into the live
 resolver (internal/pointlist/synced.go): when merging a delta gives the list a full
 refetch would have given.
 */
module PointSync {
  import opened Prelude
  import opened PointList

  type List = map<string, Entry>

  /** connectorID + NUL + localID */
  function Key(e: Entry): string {
    e.connectorId + ['\0'] + e.localId
  }

  function ById(entries: seq<Entry>): List {
    if entries == [] then map[]
    else ById(entries[..|entries| - 1])[entries[|entries| - 1].pointId := entries[|entries| - 1]]
  }

  /** Native address to point id, over ordinary (non-release) entries; the last one wins. */
  function ByLocal(entries: seq<Entry>): map<string, string> {
    if entries == [] then map[]
    else
      var e, front := entries[|entries| - 1], ByLocal(entries[..|entries| - 1]);
      if e.releaseOf == "" then front[Key(e) := e.pointId] else front
  }

  datatype Delta = Delta(added: seq<Entry>, removed: seq<string>, changed: seq<Entry>)

  /** The point a changed entry evicts because it held the same native address before under another id. */
  function Evicts(byLocal: map<string, string>, e: Entry): Option<string> {
    if e.releaseOf == "" && Key(e) in byLocal && byLocal[Key(e)] != "" && byLocal[Key(e)] != e.pointId
    then Some(byLocal[Key(e)]) else None
  }

  function Without(m: List, q: Option<string>): List {
    if q.Some? then m - {q.value} else m
  }

  function FoldChanged(m: List, byLocal: map<string, string>, changed: seq<Entry>): List {
    if changed == [] then m
    else
      var e := changed[|changed| - 1];
      Without(FoldChanged(m, byLocal, changed[..|changed| - 1]), Evicts(byLocal, e))[e.pointId := e]
  }

  function FoldAdded(m: List, added: seq<Entry>): List {
    if added == [] then m
    else FoldAdded(m, added[..|added| - 1])[added[|added| - 1].pointId := added[|added| - 1]]
  }

  function Patched(current: seq<Entry>, d: Delta): List {
    FoldChanged(FoldAdded(ById(current) - (set p | p in d.removed), d.added), ByLocal(current), d.changed)
  }

  // ---- The merge loop ----

  method IndexCurrent(current: seq<Entry>) returns (byId: List, byLocal: map<string, string>)
    ensures byId == ById(current) && byLocal == ByLocal(current)
  {
    byId, byLocal := map[], map[];
    for i := 0 to |current|
      invariant byId == ById(current[..i]) && byLocal == ByLocal(current[..i])
    {
      assert current[..i + 1][..i] == current[..i];
      var e := current[i];
      byId := byId[e.pointId := e];
      if e.releaseOf == "" {
        byLocal := byLocal[Key(e) := e.pointId];
      }
    }
    assert current[..|current|] == current;
  }

  /** Merges added, removed and changed entries; the result comes back in no particular order. */
  method ApplyDiff(current: seq<Entry>, d: Delta) returns (out: seq<Entry>)
    ensures ById(out) == Patched(current, d) && DistinctIds(out)
  {
    var byId, byLocal := IndexCurrent(current);
    for i := 0 to |d.removed|
      invariant byId == ById(current) - (set p | p in d.removed[..i])
    {
      byId := byId - {d.removed[i]};
      assert d.removed[..i + 1] == d.removed[..i] + [d.removed[i]];
    }
    assert d.removed[..|d.removed|] == d.removed;
    ghost var kept := byId;
    for i := 0 to |d.added|
      invariant byId == FoldAdded(kept, d.added[..i])
    {
      assert d.added[..i + 1][..i] == d.added[..i];
      byId := byId[d.added[i].pointId := d.added[i]];
    }
    assert d.added[..|d.added|] == d.added;
    ghost var grown := byId;
    for i := 0 to |d.changed|
      invariant byId == FoldChanged(grown, byLocal, d.changed[..i])
    {
      assert d.changed[..i + 1][..i] == d.changed[..i];
      var e := d.changed[i];
      if Key(e) in byLocal && e.releaseOf == "" && byLocal[Key(e)] != "" && byLocal[Key(e)] != e.pointId {
        byId := byId - {byLocal[Key(e)]};
      }
      byId := byId[e.pointId := e];
    }
    assert d.changed[..|d.changed|] == d.changed;
    ghost var total := byId;
    assert total == Patched(current, d);
    assert forall p :: p in total ==> total[p].pointId == p by {
      PatchedIds(current, d);
    }
    out := Flatten(byId);
  }

  ghost predicate DistinctIds(entries: seq<Entry>) {
    forall i, j :: 0 <= i < j < |entries| ==> entries[i].pointId != entries[j].pointId
  }

  /** `out` lists the given ids of the map, each once. */
  ghost predicate Flat(out: seq<Entry>, m: List, done: set<string>) {
    && DistinctIds(out) && done <= m.Keys && ById(out).Keys == done
    && (forall p :: p in done ==> ById(out)[p] == m[p])
    && (forall i :: 0 <= i < |out| ==> out[i].pointId in done)
  }

  lemma FlatOne(out: seq<Entry>, m: List, done: set<string>, p: string)
    requires Flat(out, m, done) && p in m && p !in done && m[p].pointId == p
    ensures Flat(out + [m[p]], m, done + {p})
  {
    assert (out + [m[p]])[..|out|] == out;
  }

  method Flatten(m: List) returns (out: seq<Entry>)
    requires forall p :: p in m ==> m[p].pointId == p
    ensures ById(out) == m && DistinctIds(out)
  {
    out := [];
    var rest := m.Keys;
    while rest != {}
      invariant rest <= m.Keys && Flat(out, m, m.Keys - rest)
      decreases rest
    {
      var p :| p in rest;
      FlatOne(out, m, m.Keys - rest, p);
      out := out + [m[p]];
      assert m.Keys - (rest - {p}) == m.Keys - rest + {p};
      rest := rest - {p};
    }
    assert m.Keys - rest == m.Keys;
  }

  ghost predicate Keyed(m: List) {
    forall p :: p in m ==> m[p].pointId == p
  }

  lemma {:induction false} ByIdKeyed(entries: seq<Entry>)
    ensures Keyed(ById(entries))
  {
    if entries != [] {
      ByIdKeyed(entries[..|entries| - 1]);
    }
  }

  lemma {:induction false} AddedKeyed(m: List, added: seq<Entry>)
    requires Keyed(m)
    ensures Keyed(FoldAdded(m, added))
  {
    if added != [] {
      AddedKeyed(m, added[..|added| - 1]);
    }
  }

  lemma {:induction false} ChangedKeyed(m: List, byLocal: map<string, string>, changed: seq<Entry>)
    requires Keyed(m)
    ensures Keyed(FoldChanged(m, byLocal, changed))
  {
    if changed != [] {
      ChangedKeyed(m, byLocal, changed[..|changed| - 1]);
    }
  }

  lemma PatchedIds(current: seq<Entry>, d: Delta)
    ensures Keyed(Patched(current, d))
  {
    ByIdKeyed(current);
    AddedKeyed(ById(current) - (set p | p in d.removed), d.added);
    ChangedKeyed(FoldAdded(ById(current) - (set p | p in d.removed), d.added), ByLocal(current), d.changed);
  }

  // ---- When a delta equals a full refetch ----

  ghost predicate Names(entries: seq<Entry>, p: string) {
    exists j :: 0 <= j < |entries| && entries[j].pointId == p
  }

  /** A delta that says exactly how the server's list went from `before` to `after`. */
  ghost predicate TrueDiff(before: List, after: List, d: Delta) {
    && (forall p :: p in before && p !in after ==> p in d.removed)
    && (forall p :: p in d.removed ==> p !in after)
    && (forall i :: 0 <= i < |d.added| ==>
                      var e := d.added[i];
                      e.pointId !in before && e.pointId in after && after[e.pointId] == e)
    && (forall p :: p in after && p !in before ==> Names(d.added, p))
    && (forall i :: 0 <= i < |d.changed| ==>
                      var e := d.changed[i];
                      e.pointId in before && e.pointId in after && after[e.pointId] == e)
    && (forall p :: p in after && p in before && before[p] != after[p] ==> Names(d.changed, p))
  }

  /** Every eviction of p is followed by a changed entry that puts p back. */
  ghost predicate PutBack(byLocal: map<string, string>, changed: seq<Entry>, p: string) {
    forall i :: 0 <= i < |changed| && Evicts(byLocal, changed[i]) == Some(p) ==> Names(changed[i + 1..], p)
  }

  /** No changed entry takes over the old native address of a surviving point that is not itself listed later. */
  ghost predicate NoneDisplaced(byLocal: map<string, string>, changed: seq<Entry>, after: List) {
    forall p :: p in after ==> PutBack(byLocal, changed, p)
  }

  lemma NamesSnoc(entries: seq<Entry>, e: Entry, p: string)
    ensures Names(entries + [e], p) <==> Names(entries, p) || e.pointId == p
  {
    if Names(entries, p) {
      var j :| 0 <= j < |entries| && entries[j].pointId == p;
      assert (entries + [e])[j].pointId == p;
    }
    if e.pointId == p {
      assert (entries + [e])[|entries|].pointId == p;
    }
  }

  lemma TailNames(front: seq<Entry>, e: Entry, i: nat, p: string)
    requires i < |front|
    ensures Names((front + [e])[i + 1..], p) <==> Names(front[i + 1..], p) || e.pointId == p
  {
    assert (front + [e])[i + 1..] == front[i + 1..] + [e];
    NamesSnoc(front[i + 1..], e, p);
  }

  lemma PutBackSnoc(byLocal: map<string, string>, front: seq<Entry>, e: Entry, p: string)
    ensures PutBack(byLocal, front + [e], p) <==>
            e.pointId == p || (PutBack(byLocal, front, p) && Evicts(byLocal, e) != Some(p))
  {
    var all := front + [e];
    assert all[|front| + 1..] == [] && all[|front|] == e;
    if PutBack(byLocal, all, p) && e.pointId != p {
      assert Evicts(byLocal, all[|front|]) != Some(p);
      forall i | 0 <= i < |front| && Evicts(byLocal, front[i]) == Some(p)
        ensures Names(front[i + 1..], p)
      {
        assert all[i] == front[i];
        TailNames(front, e, i, p);
      }
    }
    if e.pointId == p || (PutBack(byLocal, front, p) && Evicts(byLocal, e) != Some(p)) {
      forall i | 0 <= i < |all| && Evicts(byLocal, all[i]) == Some(p)
        ensures Names(all[i + 1..], p)
      {
        if i < |front| {
          TailNames(front, e, i, p);
          assert e.pointId != p ==> Evicts(byLocal, front[i]) == Some(p);
        }
      }
    }
  }

  lemma {:induction false} FoldMembers(m: List, byLocal: map<string, string>, changed: seq<Entry>, p: string)
    ensures p in FoldChanged(m, byLocal, changed) <==> (p in m || Names(changed, p)) && PutBack(byLocal, changed, p)
  {
    if changed != [] {
      var front, e := changed[..|changed| - 1], changed[|changed| - 1];
      assert changed == front + [e];
      FoldMembers(m, byLocal, front, p);
      NamesSnoc(front, e, p);
      PutBackSnoc(byLocal, front, e, p);
    }
  }

  lemma {:induction false} FoldValues(m: List, byLocal: map<string, string>, changed: seq<Entry>, p: string, v: Entry)
    requires p in FoldChanged(m, byLocal, changed)
    requires forall i :: 0 <= i < |changed| && changed[i].pointId == p ==> changed[i] == v
    ensures if Names(changed, p) then FoldChanged(m, byLocal, changed)[p] == v
            else p in m && FoldChanged(m, byLocal, changed)[p] == m[p]
  {
    if changed != [] {
      var front, e := changed[..|changed| - 1], changed[|changed| - 1];
      assert changed == front + [e];
      NamesSnoc(front, e, p);
      if e.pointId != p {
        FoldValues(m, byLocal, front, p, v);
      }
    }
  }

  lemma {:induction false} AddedFacts(m: List, added: seq<Entry>, p: string)
    ensures p in FoldAdded(m, added) <==> p in m || Names(added, p)
    ensures !Names(added, p) && p in m ==> FoldAdded(m, added)[p] == m[p]
    ensures Names(added, p) ==> exists i :: 0 <= i < |added| && added[i].pointId == p && FoldAdded(m, added)[p] == added[i]
  {
    if added != [] {
      var front, e := added[..|added| - 1], added[|added| - 1];
      assert added == front + [e];
      AddedFacts(m, front, p);
      NamesSnoc(front, e, p);
      if e.pointId == p {
        assert FoldAdded(m, added)[p] == added[|added| - 1];
      } else if Names(front, p) {
        var i :| 0 <= i < |front| && front[i].pointId == p && FoldAdded(m, front)[p] == front[i];
        assert FoldAdded(m, added)[p] == added[i];
      }
    }
  }

  /** Before the changed entries are merged, exactly the surviving ids are present, with old or added content. */
  lemma GrownFacts(before: List, after: List, d: Delta, p: string)
    requires TrueDiff(before, after, d)
    ensures var m := FoldAdded(before - (set q | q in d.removed), d.added);
            && (p in m <==> p in after)
            && (p in m && p in before ==> m[p] == before[p])
            && (p in m && p !in before ==> m[p] == after[p])
  {
    AddedFacts(before - (set q | q in d.removed), d.added, p);
  }

  /** Merging a true delta gives the server's new list if and only if no surviving point is displaced. */
  lemma DeltaEqualsRefetch(current: seq<Entry>, after: List, d: Delta)
    requires TrueDiff(ById(current), after, d)
    ensures Patched(current, d) == after <==> NoneDisplaced(ByLocal(current), d.changed, after)
  {
    var before, byLocal := ById(current), ByLocal(current);
    var m := FoldAdded(before - (set q | q in d.removed), d.added);
    var out := Patched(current, d);
    forall p
      ensures p in out <==> p in after && PutBack(byLocal, d.changed, p)
      ensures p in out ==> out[p] == after[p]
    {
      GrownFacts(before, after, d, p);
      FoldMembers(m, byLocal, d.changed, p);
      if p in out {
        FoldValues(m, byLocal, d.changed, p, after[p]);
      }
    }
    if NoneDisplaced(byLocal, d.changed, after) {
      assert out.Keys == after.Keys;
    }
  }

  /** Two points that swap native addresses: whichever is listed first is lost. */
  lemma SwapLosesAPoint(a: Entry, b: Entry)
    requires a.releaseOf == "" == b.releaseOf && a.connectorId == b.connectorId && a.localId != b.localId
    requires a.pointId != b.pointId && a.pointId != "" && b.pointId != ""
    ensures var a', b' := a.(localId := b.localId), b.(localId := a.localId);
            var after := map[a.pointId := a', b.pointId := b'];
            var d := Delta([], [], [a', b']);
            TrueDiff(ById([a, b]), after, d) && a.pointId !in Patched([a, b], d)
  {
    var a', b' := a.(localId := b.localId), b.(localId := a.localId);
    var after := map[a.pointId := a', b.pointId := b'];
    var d := Delta([], [], [a', b']);
    assert [a, b][..1] == [a] && [a][..0] == [];
    assert ById([a]) == map[a.pointId := a];
    assert ById([a, b]) == map[a.pointId := a, b.pointId := b];
    assert d.changed[0].pointId == a.pointId && d.changed[1].pointId == b.pointId;
    assert Key(b') == Key(a) && Key(b) != Key(a) by {
      assert Key(a)[|a.connectorId| + 1..] == a.localId && Key(b)[|b.connectorId| + 1..] == b.localId;
    }
    assert ByLocal([a]) == map[Key(a) := a.pointId];
    assert ByLocal([a, b])[Key(a)] == a.pointId;
    assert Evicts(ByLocal([a, b]), b') == Some(a.pointId);
    assert [a', b'][..1] == [a'];
  }

  // ---- The resolver and the loop ----

  class SyncedResolver {
    var forward: map<string, string>
    var reverse: List

    constructor ()
      ensures forward == map[] && reverse == map[]
    {
      forward, reverse := map[], map[];
    }

    /** Replaces both directions of the mapping at once. */
    method Update(entries: seq<Entry>)
      modifies this
      ensures forward == ByLocal(entries) && reverse == ById(entries)
    {
      var byId, byLocal := IndexCurrent(entries);
      forward, reverse := byLocal, byId;
    }
  }

  lemma {:induction false} EntryById(entries: seq<Entry>, i: nat)
    requires DistinctIds(entries) && i < |entries|
    ensures entries[i].pointId in ById(entries) && ById(entries)[entries[i].pointId] == entries[i]
  {
    var front := entries[..|entries| - 1];
    if i < |front| {
      EntryById(front, i);
      assert front[i] == entries[i];
    }
  }

  lemma {:induction false} LocalHolder(entries: seq<Entry>, k: string)
    requires k in ByLocal(entries)
    ensures exists i :: 0 <= i < |entries| && entries[i].releaseOf == "" && Key(entries[i]) == k && entries[i].pointId == ByLocal(entries)[k]
  {
    var front, e := entries[..|entries| - 1], entries[|entries| - 1];
    if e.releaseOf == "" && Key(e) == k {
      assert entries[|entries| - 1] == e;
    } else {
      LocalHolder(front, k);
      var i :| 0 <= i < |front| && front[i].releaseOf == "" && Key(front[i]) == k && front[i].pointId == ByLocal(front)[k];
      assert entries[i] == front[i];
    }
  }

  lemma {:induction false} LocalPresent(entries: seq<Entry>, i: nat)
    requires i < |entries| && entries[i].releaseOf == ""
    ensures Key(entries[i]) in ByLocal(entries)
  {
    var front := entries[..|entries| - 1];
    if i < |front| {
      LocalPresent(front, i);
      assert front[i] == entries[i];
    }
  }

  /** No changed entry moves onto a native address that a different surviving point held before. */
  ghost predicate AddressesFree(before: List, after: List, changed: seq<Entry>) {
    forall i, q ::
      (&& 0 <= i < |changed| && q in before && q in after && q != changed[i].pointId
       && changed[i].releaseOf == "" && before[q].releaseOf == "")
      ==> Key(before[q]) != Key(changed[i])
  }

  /** The server-side condition rules out displacement whatever order the entries are held in. */
  lemma FreeMeansNoneDisplaced(current: seq<Entry>, after: List, d: Delta)
    requires DistinctIds(current) && AddressesFree(ById(current), after, d.changed)
    ensures NoneDisplaced(ByLocal(current), d.changed, after)
  {
    forall p, i | p in after && 0 <= i < |d.changed|
      ensures Evicts(ByLocal(current), d.changed[i]) != Some(p)
    {
      if Evicts(ByLocal(current), d.changed[i]) == Some(p) {
        LocalHolder(current, Key(d.changed[i]));
        var j :| 0 <= j < |current| && current[j].releaseOf == "" && Key(current[j]) == Key(d.changed[i]) && current[j].pointId == p;
        EntryById(current, j);
      }
    }
  }

  /** With distinct native addresses the forward lookup is a function of the list, not of the order it is held in. */
  lemma ForwardIsDetermined(entries: seq<Entry>, p: string)
    requires DistinctIds(entries) && p in ById(entries) && ById(entries)[p].releaseOf == ""
    requires forall q :: q in ById(entries) && q != p && ById(entries)[q].releaseOf == "" ==>
               Key(ById(entries)[q]) != Key(ById(entries)[p])
    ensures var k := Key(ById(entries)[p]); k in ByLocal(entries) && ByLocal(entries)[k] == p
  {
    var i := FindById(entries, p);
    LocalPresent(entries, i);
    var k := Key(entries[i]);
    LocalHolder(entries, k);
    var j :| 0 <= j < |entries| && entries[j].releaseOf == "" && Key(entries[j]) == k && entries[j].pointId == ByLocal(entries)[k];
    EntryById(entries, j);
  }

  lemma {:induction false} FindById(entries: seq<Entry>, p: string) returns (i: nat)
    requires p in ById(entries)
    ensures i < |entries| && entries[i] == ById(entries)[p]
  {
    i := |entries| - 1;
    if entries[i].pointId != p {
      i := FindById(entries[..i], p);
    }
  }

  datatype Fetch =
    | FetchFailed
    | NotModified
    | Full(etag: string, entries: seq<Entry>)
    | Changes(etag: string, delta: Delta)

  /** What the server promises: `after` is its list for the ETag it returns, and a delta is taken from the list the gateway holds. */
  ghost predicate Honest(fetch: Fetch, before: List, after: List) {
    match fetch
    case Full(_, entries) => DistinctIds(entries) && ById(entries) == after
    case Changes(_, delta) => TrueDiff(before, after, delta)
    case _ => after == before
  }

  class Loop {
    const resolver: SyncedResolver
    var entries: seq<Entry>
    var etag: string
    var synced: bool
    ghost var server: List  // the server's full list for the applied ETag

    /** Once a fetch has succeeded, the resolver holds exactly the server's list for the applied ETag. */
    ghost predicate Agrees()
      reads this, resolver
    {
      synced ==> DistinctIds(entries) && ById(entries) == server && resolver.reverse == server && resolver.forward == ByLocal(entries)
    }

    /** The resolver may already hold a persisted snapshot; nothing is claimed until the first sync. */
    constructor (resolver: SyncedResolver)
      ensures this.resolver == resolver && etag == "" && !synced && Agrees()
    {
      this.resolver := resolver;
      entries, etag, synced, server := [], "", false, map[];
    }

    /** One sync. A delta keeps the agreement exactly when it displaces no surviving point; everything else always keeps it. */
    method Sync(fetch: Fetch, ghost after: List)
      requires Agrees() && Honest(fetch, server, after)
      requires fetch.Changes? ==> synced && etag != ""
      modifies this, resolver
      ensures Agrees() <==> (fetch.Changes? ==> NoneDisplaced(ByLocal(old(entries)), fetch.delta.changed, after))
      ensures server == after && synced == (old(synced) || fetch.Full? || fetch.Changes?)
      ensures etag == if fetch.Full? || fetch.Changes? then fetch.etag else old(etag)
    {
      server := after;
      match fetch {
        case FetchFailed => return;
        case NotModified => return;
        case Full(_, list) => entries := list;
        case Changes(_, delta) =>
          DeltaEqualsRefetch(entries, after, delta);
          entries := ApplyDiff(entries, delta);
      }
      resolver.Update(entries);
      etag, synced := fetch.etag, true;
    }

    /** A poll: the server answers with a delta only to a non-empty known ETag, and never moves a point onto a survivor's address. */
    ghost predicate Acceptable(fetch: Fetch, after: List)
      reads this
    {
      && Honest(fetch, server, after)
      && (fetch.Changes? ==> synced && etag != "" && AddressesFree(server, after, fetch.delta.changed))
    }

    /** Such a poll keeps the resolver equal to the server's list, whatever mix of polls came before. */
    method Poll(fetch: Fetch, ghost after: List)
      requires Agrees() && Acceptable(fetch, after)
      modifies this, resolver
      ensures Agrees() && server == after
      ensures synced == (old(synced) || fetch.Full? || fetch.Changes?)
      ensures etag == if fetch.Full? || fetch.Changes? then fetch.etag else old(etag)
    {
      if fetch.Changes? {
        FreeMeansNoneDisplaced(entries, after, fetch.delta);
      }
      Sync(fetch, after);
    }

    /** Any mix of full, delta, 304 and failed fetches leaves the resolver equal to the server's list for the applied ETag. */
    method Run(fetches: seq<Fetch>, ghost lists: seq<List>)
      requires Agrees() && |lists| == |fetches| && AcceptableRun(server, etag, synced, fetches, lists)
      modifies this, resolver
      ensures Agrees() && server == (if lists == [] then old(server) else lists[|lists| - 1])
      ensures synced == (old(synced) || exists i :: 0 <= i < |fetches| && (fetches[i].Full? || fetches[i].Changes?))
    {
      for i := 0 to |fetches|
        invariant Agrees() && AcceptableRun(server, etag, synced, fetches[i..], lists[i..])
        invariant server == (if i == 0 then old(server) else lists[i - 1])
        invariant synced == (old(synced) || exists j :: 0 <= j < i && (fetches[j].Full? || fetches[j].Changes?))
      {
        assert fetches[i..][1..] == fetches[i + 1..] && lists[i..][1..] == lists[i + 1..];
        Poll(fetches[i], lists[i]);
      }
    }
  }

  ghost predicate AcceptableRun(server: List, etag: string, synced: bool, fetches: seq<Fetch>, lists: seq<List>)
    requires |fetches| == |lists|
    decreases |fetches|
  {
    fetches == [] || (
      var f, after := fetches[0], lists[0];
      && Honest(f, server, after)
      && (f.Changes? ==> synced && etag != "" && AddressesFree(server, after, f.delta.changed))
      && AcceptableRun(after, if f.Full? || f.Changes? then f.etag else etag, synced || f.Full? || f.Changes?,
                       fetches[1..], lists[1..]))
  }
}
