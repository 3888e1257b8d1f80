/** Values shared by the modules: optional values, results with an error, and small helpers. */
module Prelude {

  datatype Option<+T> = None | Some(value: T) {
    function GetOr(default: T): T {
      match this
      case Some(v) => v
      case None => default
    }
  }

  datatype Result<+T, +E> = Ok(value: T) | Err(error: E)

  function Min(x: int, y: int): int {
    if x < y then x else y
  }

  function Max(x: int, y: int): int {
    if x < y then y else x
  }

  // What a loop over a set needs to pick its next element.
  lemma SomeMember<T(0, !new)>(s: set<T>) returns (x: T)
    ensures s != {} ==> x in s
  {
    if y :| y in s {
      x := y;
    } else {
      assert s == {};
      x := *;
    }
  }

  lemma Regroup<T>(a: seq<T>, b: seq<T>, c: seq<T>)
    ensures a + (b + c) == (a + b) + c
  {
  }

  // Two texts never share a digest.
  ghost predicate CollisionFree(digest: string -> string) {
    forall s: string, t: string :: digest(s) == digest(t) ==> s == t
  }
}
