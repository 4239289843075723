/** Small shared types: optional values, results, and the arithmetic the models need. */
module Prelude {

  datatype Option<+T> = None | Some(value: T)

  datatype Result<+T> = Ok(value: T) | Err(error: string)

  /** On a count of failed calls: an operation fails only if some call failed during it. */
  ghost predicate Blamed(before: nat, after: nat, ok: bool) {
    before <= after && (ok || before < after)
  }

  ghost predicate Increasing(a: seq<nat>) {
    forall i, j :: 0 <= i < j < |a| ==> a[i] < a[j]
  }

  /** The members of a set of positions, in order. */
  ghost predicate Listed(a: seq<nat>, members: set<nat>) {
    Increasing(a) && (set k | k in a) == members
  }

  lemma ListedSnoc(a: seq<nat>, members: set<nat>, n: nat)
    requires Listed(a, members) && forall k :: k in members ==> k < n
    ensures Listed(a + [n], members + {n})
  {
    assert forall i :: 0 <= i < |a| ==> a[i] in members;
    assert forall k :: k in a + [n] <==> k in a || k == n;
  }

  function Min(a: int, b: int): int {
    if a <= b then a else b
  }

  function Max(a: int, b: int): int {
    if a >= b then a else b
  }
}
