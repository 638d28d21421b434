/** Walks along a successor function, and the fact that a closed set contains everything reachable from it. */
module Reachability {

  /**
   * `walk` is non-empty and each element is a successor of the one before it. The step
   * is stated over two neighbouring positions so that no instance creates a new position.
   */
  predicate IsWalk<T>(succ: T -> set<T>, walk: seq<T>)
  {
    |walk| >= 1 && forall i, j {:trigger walk[i], walk[j]} :: 0 <= i < |walk| && 0 <= j < |walk| && j == i + 1 ==> walk[j] in succ(walk[i])
  }

  ghost predicate Reaches<T(!new)>(succ: T -> set<T>, from: T, to: T)
  {
    exists walk :: IsWalk(succ, walk) && walk[0] == from && walk[|walk| - 1] == to
  }

  /** No successor of a member of `s` lies outside `s`. */
  ghost predicate Closed<T>(succ: T -> set<T>, s: set<T>)
  {
    forall a :: a in s ==> succ(a) <= s
  }

  lemma {:induction false} ReachesSelf<T(!new)>(succ: T -> set<T>, x: T)
    ensures Reaches(succ, x, x)
  {
    assert IsWalk(succ, [x]);
  }

  /** Stepping to a successor and then walking on is a walk. */
  lemma {:induction false} ReachesPrepend<T(!new)>(succ: T -> set<T>, x: T, y: T, z: T)
    requires y in succ(x) && Reaches(succ, y, z)
    ensures Reaches(succ, x, z)
  {
    var walk :| IsWalk(succ, walk) && walk[0] == y && walk[|walk| - 1] == z;
    assert IsWalk(succ, [x] + walk);
  }

  /** A closed set holding the start of a walk holds its whole walk. */
  lemma {:induction false} ClosedWalk<T>(succ: T -> set<T>, s: set<T>, walk: seq<T>)
    requires Closed(succ, s) && IsWalk(succ, walk) && walk[0] in s
    ensures walk[|walk| - 1] in s
    decreases |walk|
  {
    if |walk| > 1 {
      assert walk[1] in succ(walk[0]);
      ClosedWalk(succ, s, walk[1..]);
      assert walk[1..][|walk| - 2] == walk[|walk| - 1];
    }
  }

  lemma {:induction false} ClosedContainsReachable<T(!new)>(succ: T -> set<T>, s: set<T>, x: T, y: T)
    requires Closed(succ, s) && x in s && Reaches(succ, x, y)
    ensures y in s
  {
    var walk :| IsWalk(succ, walk) && walk[0] == x && walk[|walk| - 1] == y;
    ClosedWalk(succ, s, walk);
  }

  /** A closed set that holds `x` and whose every member is reachable from `x` is exactly what `x` reaches. */
  lemma {:induction false} ReachableSet<T(!new)>(succ: T -> set<T>, x: T, s: set<T>)
    requires x in s && Closed(succ, s)
    requires forall y :: y in s ==> Reaches(succ, x, y)
    ensures forall y :: y in s <==> Reaches(succ, x, y)
  {
    forall y | Reaches(succ, x, y)
      ensures y in s
    {
      ClosedContainsReachable(succ, s, x, y);
    }
  }
}
