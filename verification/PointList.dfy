/** One Point List entry (internal/pointlist/fixture.go) and the byte order Go sorts strings by. */
module PointList {

  datatype Entry = Entry(
    releaseOf: string, connectorId: string, protocol: string, localId: string, pointId: string,
    unit: string, writable: bool, deviceRef: string, controlSchema: string)

  predicate LexLeq(a: string, b: string) {
    a == [] || (b != [] && (a[0] < b[0] || (a[0] == b[0] && LexLeq(a[1..], b[1..]))))
  }

  ghost predicate FirstBelow(a: string, b: string, i: nat) {
    i < |a| && i < |b| && a[i] < b[i] && forall j :: 0 <= j < i ==> a[j] == b[j]
  }

  lemma FirstBelowStep(a: string, b: string, i: nat)
    requires a != [] && b != []
    ensures FirstBelow(a, b, i + 1) <==> a[0] == b[0] && FirstBelow(a[1..], b[1..], i)
  {
    if FirstBelow(a, b, i + 1) {
      assert forall j :: 0 <= j < i ==> a[1..][j] == a[j + 1] && b[1..][j] == b[j + 1];
    }
  }

  /** Byte order: a prefix comes first, and otherwise the first difference decides. */
  lemma {:induction false} LexLeqIff(a: string, b: string)
    ensures LexLeq(a, b) <==> a <= b || exists i: nat :: FirstBelow(a, b, i)
  {
    if a != [] && b != [] {
      LexLeqIff(a[1..], b[1..]);
      assert a[0] < b[0] ==> FirstBelow(a, b, 0);
      if i: nat :| FirstBelow(a[1..], b[1..], i) {
        FirstBelowStep(a, b, i);
      }
      if i: nat :| FirstBelow(a, b, i) && i > 0 {
        FirstBelowStep(a, b, i - 1);
      }
      assert a[0] == b[0] ==> (a <= b <==> a[1..] <= b[1..]);
    }
  }

  lemma {:induction false} LexTotal(a: string, b: string)
    ensures LexLeq(a, b) || LexLeq(b, a)
    ensures LexLeq(a, b) && LexLeq(b, a) ==> a == b
  {
    if a != [] && b != [] {
      LexTotal(a[1..], b[1..]);
      assert a == [a[0]] + a[1..] && b == [b[0]] + b[1..];
    }
  }

  lemma {:induction false} LexTrans(a: string, b: string, c: string)
    requires LexLeq(a, b) && LexLeq(b, c)
    ensures LexLeq(a, c)
  {
    if a != [] && a[0] == b[0] == c[0] {
      LexTrans(a[1..], b[1..], c[1..]);
    }
  }
}
