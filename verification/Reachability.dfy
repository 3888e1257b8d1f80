/** Reachability along a successor function, as the existence of a path. */
module Reachability {

  ghost predicate IsPath<T(!new)>(next: T -> seq<T>, p: seq<T>) {
    forall k :: 0 <= k < |p| - 1 ==> p[k + 1] in next(p[k])
  }

  // b is a or can be reached from a through blocks of `within` only.
  ghost predicate ReachesWithin<T(!new)>(next: T -> seq<T>, within: set<T>, a: T, b: T) {
    exists p: seq<T> :: Connects(next, within, p, a, b)
  }

  ghost predicate Connects<T(!new)>(next: T -> seq<T>, within: set<T>, p: seq<T>, a: T, b: T) {
    && |p| > 0 && p[0] == a && p[|p| - 1] == b && IsPath(next, p)
    && forall k :: 0 <= k < |p| ==> p[k] in within
  }

  ghost predicate Reaches<T(!new)>(next: T -> seq<T>, a: T, b: T) {
    exists p: seq<T> :: |p| > 0 && p[0] == a && p[|p| - 1] == b && IsPath(next, p)
  }

  lemma ReachesItself<T(!new)>(next: T -> seq<T>, a: T)
    ensures Reaches(next, a, a)
  {
    assert IsPath(next, [a]);
    assert [a][0] == a && [a][|[a]| - 1] == a;
  }

  lemma ReachesOn<T(!new)>(next: T -> seq<T>, a: T, b: T, c: T)
    requires Reaches(next, a, b) && c in next(b)
    ensures Reaches(next, a, c)
  {
    var p: seq<T> :| |p| > 0 && p[0] == a && p[|p| - 1] == b && IsPath(next, p);
    var q := p + [c];
    assert IsPath(next, q);
    assert |q| > 0 && q[0] == a && q[|q| - 1] == c;
  }

  lemma ReachesItselfWithin<T(!new)>(next: T -> seq<T>, within: set<T>, a: T)
    requires a in within
    ensures ReachesWithin(next, within, a, a)
  {
    assert Connects(next, within, [a], a, a);
  }

  lemma ReachesOnWithin<T(!new)>(next: T -> seq<T>, within: set<T>, a: T, b: T, c: T)
    requires ReachesWithin(next, within, a, b) && c in next(b) && c in within
    ensures ReachesWithin(next, within, a, c)
  {
    var p: seq<T> :| Connects(next, within, p, a, b);
    assert Connects(next, within, p + [c], a, c);
  }

  ghost predicate Closed<T(!new)>(next: T -> seq<T>, s: set<T>) {
    forall a, b :: a in s && b in next(a) ==> b in s
  }

  lemma {:induction false} PathStaysInside<T(!new)>(next: T -> seq<T>, s: set<T>, p: seq<T>, k: nat)
    requires Closed(next, s) && IsPath(next, p) && |p| > 0 && p[0] in s && k < |p|
    ensures p[k] in s
  {
    if k > 0 {
      PathStaysInside(next, s, p, k - 1);
    }
  }

  /** A closed set that holds the root holds everything the root reaches. */
  lemma ClosedHoldsReachable<T(!new)>(next: T -> seq<T>, s: set<T>, a: T, b: T)
    requires Closed(next, s) && a in s && Reaches(next, a, b)
    ensures b in s
  {
    var p: seq<T> :| |p| > 0 && p[0] == a && p[|p| - 1] == b && IsPath(next, p);
    PathStaysInside(next, s, p, |p| - 1);
  }
}
