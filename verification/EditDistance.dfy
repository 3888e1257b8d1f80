/** Bounded optimal-string-alignment distance (context-gate/src/package-typosquat.ts).
 *
 *  The reference is a recursion over prefixes, which is in turn shown to be the cheapest
 *  alignment of the two strings.  The three-row method, with its early exit, is proved
 *  against the recursion.
 */
module EditDistance {
  import opened Prelude

  // Strings are sequences of UTF-16 code units, as indexing and length count them.
  newtype CodeUnit = u: int | 0 <= u < 0x1_0000
  type Text = seq<CodeUnit>

  // ---------- The recursive distance between a[..i] and b[..j] ----------

  function Osa(a: Text, b: Text, i: nat, j: nat): nat
    requires i <= |a| && j <= |b|
  {
    if i == 0 then j
    else if j == 0 then i
    else
      Cell(a[i - 1] == b[j - 1], Osa(a, b, i - 1, j), Osa(a, b, i, j - 1), Osa(a, b, i - 1, j - 1),
           if Swapped(a, b, i, j) then Some(Osa(a, b, i - 2, j - 2)) else None)
  }

  function Cell(same: bool, above: nat, left: nat, diagonal: nat, swap: Option<nat>): nat {
    var v := Min(Min(above + 1, left + 1), diagonal + if same then 0 else 1);
    if swap.Some? then Min(v, swap.value + 1) else v
  }

  // One unfolding of the recursion, for proofs that hide the rest of it.
  lemma Unfold(a: Text, b: Text, i: nat, j: nat)
    requires i <= |a| && j <= |b|
    ensures i == 0 ==> Osa(a, b, i, j) == j
    ensures j == 0 ==> Osa(a, b, i, j) == i
    ensures i > 0 && j > 0 && Swapped(a, b, i, j) ==>
      Osa(a, b, i, j) == Cell(a[i - 1] == b[j - 1], Osa(a, b, i - 1, j), Osa(a, b, i, j - 1), Osa(a, b, i - 1, j - 1),
                              Some(Osa(a, b, i - 2, j - 2)))
    ensures i > 0 && j > 0 && !Swapped(a, b, i, j) ==>
      Osa(a, b, i, j) == Cell(a[i - 1] == b[j - 1], Osa(a, b, i - 1, j), Osa(a, b, i, j - 1), Osa(a, b, i - 1, j - 1), None)
  {
  }

  predicate Swapped(a: Text, b: Text, i: nat, j: nat)
    requires 0 < i <= |a| && 0 < j <= |b|
  {
    i > 1 && j > 1 && a[i - 1] == b[j - 2] && a[i - 2] == b[j - 1]
  }

  function Distance(a: Text, b: Text): nat {
    Osa(a, b, |a|, |b|)
  }

  // ---------- Alignments: what the distance measures ----------

  datatype Edit = Keep | Substitute | Insert | Delete | Transpose

  // A script is read from its last edit; every character is consumed by exactly one edit,
  // which is what separates optimal string alignment from full Damerau-Levenshtein.
  datatype Script = Start | Then(before: Script, edit: Edit)

  predicate Aligns(s: Script, a: Text, b: Text, i: nat, j: nat)
    requires i <= |a| && j <= |b|
  {
    match s
    case Start => i == 0 && j == 0
    case Then(before, edit) =>
      match edit
      case Keep => i > 0 && j > 0 && a[i - 1] == b[j - 1] && Aligns(before, a, b, i - 1, j - 1)
      case Substitute => i > 0 && j > 0 && Aligns(before, a, b, i - 1, j - 1)
      case Insert => j > 0 && Aligns(before, a, b, i, j - 1)
      case Delete => i > 0 && Aligns(before, a, b, i - 1, j)
      case Transpose => i > 0 && j > 0 && Swapped(a, b, i, j) && Aligns(before, a, b, i - 2, j - 2)
  }

  function Cost(s: Script): nat {
    match s
    case Start => 0
    case Then(before, edit) => Cost(before) + if edit == Keep then 0 else 1
  }

  lemma {:induction false} NoAlignmentIsCheaper(s: Script, a: Text, b: Text, i: nat, j: nat)
    requires i <= |a| && j <= |b| && Aligns(s, a, b, i, j)
    ensures Osa(a, b, i, j) <= Cost(s)
  {
    hide Osa;
    Unfold(a, b, i, j);
    match s
    case Start =>
    case Then(before, edit) =>
      match edit
      case Keep => NoAlignmentIsCheaper(before, a, b, i - 1, j - 1);
      case Substitute => NoAlignmentIsCheaper(before, a, b, i - 1, j - 1);
      case Insert =>
        NoAlignmentIsCheaper(before, a, b, i, j - 1);
        Unfold(a, b, i, j - 1);
      case Delete =>
        NoAlignmentIsCheaper(before, a, b, i - 1, j);
        Unfold(a, b, i - 1, j);
      case Transpose => NoAlignmentIsCheaper(before, a, b, i - 2, j - 2);
  }

  lemma {:induction false} SomeAlignmentCostsTheDistance(a: Text, b: Text, i: nat, j: nat) returns (s: Script)
    requires i <= |a| && j <= |b|
    ensures Aligns(s, a, b, i, j) && Cost(s) == Osa(a, b, i, j)
    decreases i, j
  {
    hide Osa;
    Unfold(a, b, i, j);
    if i == 0 && j == 0 {
      s := Start;
    } else if i == 0 {
      Unfold(a, b, i, j - 1);
      var t := SomeAlignmentCostsTheDistance(a, b, i, j - 1);
      s := Then(t, Insert);
    } else if j == 0 {
      Unfold(a, b, i - 1, j);
      var t := SomeAlignmentCostsTheDistance(a, b, i - 1, j);
      s := Then(t, Delete);
    } else if Swapped(a, b, i, j) && Osa(a, b, i, j) == Osa(a, b, i - 2, j - 2) + 1 {
      var t := SomeAlignmentCostsTheDistance(a, b, i - 2, j - 2);
      s := Then(t, Transpose);
    } else if Osa(a, b, i, j) == Osa(a, b, i - 1, j) + 1 {
      var t := SomeAlignmentCostsTheDistance(a, b, i - 1, j);
      s := Then(t, Delete);
    } else if Osa(a, b, i, j) == Osa(a, b, i, j - 1) + 1 {
      var t := SomeAlignmentCostsTheDistance(a, b, i, j - 1);
      s := Then(t, Insert);
    } else {
      var t := SomeAlignmentCostsTheDistance(a, b, i - 1, j - 1);
      s := Then(t, if a[i - 1] == b[j - 1] then Keep else Substitute);
    }
  }

  /** The recursion is the cost of the cheapest alignment. */
  lemma DistanceIsTheCheapestAlignment(a: Text, b: Text)
    ensures exists s :: Aligns(s, a, b, |a|, |b|) && Cost(s) == Distance(a, b)
    ensures forall s :: Aligns(s, a, b, |a|, |b|) ==> Distance(a, b) <= Cost(s)
  {
    var s := SomeAlignmentCostsTheDistance(a, b, |a|, |b|);
    forall s | Aligns(s, a, b, |a|, |b|)
      ensures Distance(a, b) <= Cost(s)
    {
      NoAlignmentIsCheaper(s, a, b, |a|, |b|);
    }
  }

  // ---------- Facts the early exits rest on ----------

  lemma {:induction false} LengthGapIsALowerBound(a: Text, b: Text, i: nat, j: nat)
    requires i <= |a| && j <= |b|
    ensures i - j <= Osa(a, b, i, j) && j - i <= Osa(a, b, i, j)
    decreases i, j
  {
    hide Osa;
    Unfold(a, b, i, j);
    if i > 0 && j > 0 {
      LengthGapIsALowerBound(a, b, i - 1, j);
      LengthGapIsALowerBound(a, b, i, j - 1);
      LengthGapIsALowerBound(a, b, i - 1, j - 1);
      if Swapped(a, b, i, j) {
        LengthGapIsALowerBound(a, b, i - 2, j - 2);
      }
    }
  }

  // A cell exceeds the one above it by at most one.
  lemma OneRowApart(a: Text, b: Text, i: nat, j: nat)
    requires 0 < i <= |a| && j <= |b|
    ensures Osa(a, b, i, j) <= Osa(a, b, i - 1, j) + 1
  {
  }

  ghost predicate RowAtLeast(a: Text, b: Text, i: nat, m: int)
    requires i <= |a|
  {
    forall k: nat :: k <= |b| ==> m <= Osa(a, b, i, k)
  }

  // A transposition looks two rows back, past row i; OneRowApart brings it into row i.
  lemma {:induction false} NextRowCellAtLeast(a: Text, b: Text, i: nat, j: nat, m: int)
    requires i < |a| && j <= |b| && RowAtLeast(a, b, i, m)
    ensures m <= Osa(a, b, i + 1, j)
  {
    hide Osa;
    Unfold(a, b, i + 1, j);
    if j == 0 {
      Unfold(a, b, i, 0);
      assert m <= Osa(a, b, i, 0);
    } else {
      NextRowCellAtLeast(a, b, i, j - 1, m);
      assert m <= Osa(a, b, i, j) && m <= Osa(a, b, i, j - 1);
      if Swapped(a, b, i + 1, j) {
        OneRowApart(a, b, i, j - 2);
        assert m <= Osa(a, b, i, j - 2);
      }
    }
  }

  /** The minimum of a row never falls below the minimum of an earlier row. */
  lemma {:induction false} RowMinimaNeverFall(a: Text, b: Text, i: nat, k: nat, m: int)
    requires i <= k <= |a| && RowAtLeast(a, b, i, m)
    ensures RowAtLeast(a, b, k, m)
    decreases k - i
  {
    if i < k {
      forall j: nat {:trigger Osa(a, b, i + 1, j)} | j <= |b|
        ensures m <= Osa(a, b, i + 1, j)
      {
        NextRowCellAtLeast(a, b, i, j, m);
      }
      RowMinimaNeverFall(a, b, i + 1, k, m);
    }
  }

  lemma {:induction false} EqualPrefixesAreAtZero(a: Text, i: nat)
    requires i <= |a|
    ensures Osa(a, a, i, i) == 0
  {
    if i > 0 {
      EqualPrefixesAreAtZero(a, i - 1);
    }
  }

  lemma {:induction false} ZeroMeansEqualPrefixes(a: Text, b: Text, i: nat, j: nat)
    requires i <= |a| && j <= |b| && Osa(a, b, i, j) == 0
    ensures a[..i] == b[..j]
  {
    if i > 0 && j > 0 {
      assert a[i - 1] == b[j - 1];
      ZeroMeansEqualPrefixes(a, b, i - 1, j - 1);
      assert a[..i] == a[..i - 1] + [a[i - 1]];
      assert b[..j] == b[..j - 1] + [b[j - 1]];
    }
  }

  /** Distance zero is equality, so a hint at distance one never names the package itself. */
  lemma DistanceZeroIffEqual(a: Text, b: Text)
    ensures Distance(a, b) == 0 <==> a == b
  {
    EqualPrefixesAreAtZero(a, |a|);
    if Distance(a, b) == 0 {
      ZeroMeansEqualPrefixes(a, b, |a|, |b|);
      assert a[..|a|] == a && b[..|b|] == b;
    }
  }

  lemma {:induction false} Symmetric(a: Text, b: Text, i: nat, j: nat)
    requires i <= |a| && j <= |b|
    ensures Osa(a, b, i, j) == Osa(b, a, j, i)
    decreases i, j
  {
    hide Osa;
    Unfold(a, b, i, j);
    Unfold(b, a, j, i);
    if i > 0 && j > 0 {
      Symmetric(a, b, i - 1, j);
      Symmetric(a, b, i, j - 1);
      Symmetric(a, b, i - 1, j - 1);
      if Swapped(a, b, i, j) {
        Symmetric(a, b, i - 2, j - 2);
      }
    }
  }

  // ---------- The bounded distance ----------

  // ---------- What one typing error costs ----------

  // Equal units at the end do not add to the distance of what is before them.
  lemma OneUnitMore(a: Text, b: Text, i: nat, j: nat)
    requires 0 < i <= |a| && 0 < j <= |b| && a[i - 1] == b[j - 1]
    ensures Osa(a, b, i, j) <= Osa(a, b, i - 1, j - 1)
  {
    hide Osa;
    Unfold(a, b, i, j);
  }

  lemma {:induction false} EqualTails(a: Text, b: Text, i: nat, j: nat, n: nat)
    requires i + n <= |a| && j + n <= |b| && a[i..i + n] == b[j..j + n]
    ensures Osa(a, b, i + n, j + n) <= Osa(a, b, i, j)
  {
    hide Osa;
    if n > 0 {
      assert a[i..i + n][n - 1] == b[j..j + n][n - 1];
      assert a[i..i + n][..n - 1] == a[i..i + n - 1] && b[j..j + n][..n - 1] == b[j..j + n - 1];
      EqualTails(a, b, i, j, n - 1);
      OneUnitMore(a, b, i + n, j + n);
    }
  }

  // The text is x between a front and a back.
  predicate Between(a: Text, front: Text, x: Text, back: Text) {
    var m := |front| + |x|;
    |a| == m + |back| && a[..|front|] == front && a[|front|..m] == x && a[m..m + |back|] == back
  }

  lemma BetweenIs(front: Text, x: Text, back: Text)
    ensures Between(front + x + back, front, x, back)
  {
  }

  lemma SameEnds(a: Text, b: Text, k: nat, m: nat, n: nat, t: nat)
    requires k <= m && k <= n && m + t == |a| && n + t == |b| && a[..k] == b[..k] && a[m..m + t] == b[n..n + t]
    ensures Osa(a, b, k, k) == 0 && Distance(a, b) <= Osa(a, b, m, n)
  {
    hide Osa;
    EqualFronts(a, b, k);
    EqualTails(a, b, m, n, t);
  }

  lemma OneMiddle(a: Text, front: Text, x: Text, y: Text, back: Text)
    requires Between(a, front, x, back) && Between(a, front, y, back)
    ensures x == y
  {
    assert |x| == |y|;
  }

  lemma FrontAndBack(a: Text, b: Text, front: Text, x: Text, y: Text, back: Text)
    requires Between(a, front, x, back) && Between(b, front, y, back)
    ensures |front| + |x| <= |a| && |front| + |y| <= |b|
    ensures a[..|front|] == b[..|front|]
    ensures a[|front| + |x|..|front| + |x| + |back|] == b[|front| + |y|..|front| + |y| + |back|]
  {
  }

  lemma OneUnitChanged(a: Text, b: Text, front: Text, x: Text, y: Text, back: Text)
    requires Between(a, front, x, back) && Between(b, front, y, back) && x != y
    requires (|x| <= 1 && |y| <= 1) || (|x| == |y| == 2 && x[0] == y[1] && x[1] == y[0])
    ensures Distance(a, b) == 1
  {
    hide Osa, Distance;
    FrontAndBack(a, b, front, x, y, back);
    SameEnds(a, b, |front|, |front| + |x|, |front| + |y|, |back|);
    DistanceZeroIffEqual(a, b);
    if a == b {
      OneMiddle(a, front, x, y, back);
    }
    var k, m, n := |front|, |front| + |x|, |front| + |y|;
    assert |x| == 2 ==> x[0] == a[k] && x[1] == a[k + 1] && y[0] == b[k] && y[1] == b[k + 1];
    Unfold(a, b, m, n);
  }

  lemma {:induction false} EqualFronts(a: Text, b: Text, n: nat)
    requires n <= |a| && n <= |b| && a[..n] == b[..n]
    ensures Osa(a, b, n, n) == 0
  {
    if n > 0 {
      assert a[..n][n - 1] == b[..n][n - 1];
      assert a[..n][..n - 1] == a[..n - 1] && b[..n][..n - 1] == b[..n - 1];
      EqualFronts(a, b, n - 1);
      hide Osa;
      OneUnitMore(a, b, n, n);
    }
  }

  /** A wrong unit, an extra one, a missing one, and two adjacent ones exchanged are each at distance one. */
  lemma OneErrorIsAtDistanceOne(front: Text, x: CodeUnit, y: CodeUnit, back: Text)
    requires x != y
    ensures Distance(front + [x] + back, front + [y] + back) == 1
    ensures Distance(front + [x] + back, front + [] + back) == 1
    ensures Distance(front + [] + back, front + [x] + back) == 1
    ensures Distance(front + [x, y] + back, front + [y, x] + back) == 1
  {
    hide Distance, Between;
    BetweenIs(front, [x], back);
    BetweenIs(front, [y], back);
    BetweenIs(front, [], back);
    BetweenIs(front, [x, y], back);
    BetweenIs(front, [y, x], back);
    OneUnitChanged(front + [x] + back, front + [y] + back, front, [x], [y], back);
    OneUnitChanged(front + [x] + back, front + [] + back, front, [x], [], back);
    OneUnitChanged(front + [] + back, front + [x] + back, front, [], [x], back);
    OneUnitChanged(front + [x, y] + back, front + [y, x] + back, front, [x, y], [y, x], back);
  }

  // What the bound is for: the distance if it is within max, nothing otherwise.
  function Promised(a: Text, b: Text, max: int): Option<nat> {
    if Distance(a, b) <= max then Some(Distance(a, b)) else None
  }

  // What the code answers: equal strings are answered before max is looked at.
  function AtMost(a: Text, b: Text, max: int): Option<nat> {
    if a == b then Some(0) else Promised(a, b, max)
  }

  /** The code keeps its promise except for equal strings under a negative bound. */
  lemma PromiseKeptIff(a: Text, b: Text, max: int)
    ensures AtMost(a, b, max) == Promised(a, b, max) <==> (max >= 0 || a != b)
  {
    DistanceZeroIffEqual(a, b);
  }

  // "npm"
  const NPM: Text := [110, 112, 109]

  lemma NegativeBoundBreaksThePromise()
    ensures AtMost(NPM, NPM, -1) == Some(0)
    ensures Promised(NPM, NPM, -1) == None
  {
    DistanceZeroIffEqual(NPM, NPM);
  }

  ghost predicate IsRow(row: array<nat>, a: Text, b: Text, i: nat)
    requires i <= |a|
    reads row
  {
    row.Length == |b| + 1 && forall j: nat :: j <= |b| ==> row[j] == Osa(a, b, i, j)
  }

  // The cell as the loop computes it.
  lemma CellByLoop(a: Text, b: Text, i: nat, j: nat, v: int, back: Option<nat>)
    requires 1 <= i <= |a| && 1 <= j <= |b|
    requires back == if Swapped(a, b, i, j) then Some(Osa(a, b, i - 2, j - 2)) else None
    requires var cost := if a[i - 1] == b[j - 1] then 0 else 1;
      var plain := Min(Min(Osa(a, b, i - 1, j) + 1, Osa(a, b, i, j - 1) + 1), Osa(a, b, i - 1, j - 1) + cost);
      v == if back.Some? then Min(plain, back.value + 1) else plain
    ensures v == Osa(a, b, i, j)
  {
    hide Osa;
    Unfold(a, b, i, j);
  }

  // The i-th row from the two above it, and a lower bound on its cells.
  method FillRow(a: Text, b: Text, i: nat, prev: array<nat>, prev2: array?<nat>) returns (cur: array<nat>, rowMin: nat)
    requires 1 <= i <= |a| && IsRow(prev, a, b, i - 1)
    requires (prev2 == null <==> i == 1) && (i > 1 ==> IsRow(prev2, a, b, i - 2))
    ensures fresh(cur) && IsRow(cur, a, b, i)
    ensures forall j: nat :: j <= |b| ==> rowMin <= Osa(a, b, i, j)
  {
    hide Osa;
    cur := new nat[|b| + 1](_ => i);
    Unfold(a, b, i, 0);
    rowMin := i;
    var j := 1;
    while j <= |b|
      invariant 1 <= j <= |b| + 1
      invariant forall k: nat :: k < j ==> cur[k] == Osa(a, b, i, k)
      invariant forall k: nat :: k < j ==> rowMin <= Osa(a, b, i, k)
    {
      var cost := if a[i - 1] == b[j - 1] then 0 else 1;
      var v := Min(Min(prev[j] + 1, cur[j - 1] + 1), prev[j - 1] + cost);
      ghost var back: Option<nat> := None;
      if prev2 != null && i > 1 && j > 1 && a[i - 1] == b[j - 2] && a[i - 2] == b[j - 1] {
        v := Min(v, prev2[j - 2] + 1);
        back := Some(prev2[j - 2]);
      }
      CellByLoop(a, b, i, j, v, back);
      cur[j] := v;
      if v < rowMin {
        rowMin := v;
      }
      j := j + 1;
    }
  }

  method OsaDistanceAtMost(a: Text, b: Text, max: int) returns (r: Option<nat>)
    ensures r == AtMost(a, b, max)
  {
    hide Osa;
    if a == b {
      return Some(0);
    }
    if |a| - |b| > max || |b| - |a| > max {
      LengthGapIsALowerBound(a, b, |a|, |b|);
      return None;
    }
    var prev2: array?<nat> := null;
    var prev := new nat[|b| + 1](j => j);
    forall j: nat | j <= |b|
      ensures Osa(a, b, 0, j) == j
    {
      Unfold(a, b, 0, j);
    }
    var i := 1;
    while i <= |a|
      invariant 1 <= i <= |a| + 1
      invariant IsRow(prev, a, b, i - 1)
      invariant (prev2 == null <==> i == 1) && (i > 1 ==> IsRow(prev2, a, b, i - 2))
    {
      var cur, rowMin := FillRow(a, b, i, prev, prev2);
      if rowMin > max {
        RowMinimaNeverFall(a, b, i, |a|, rowMin);
        assert rowMin <= Osa(a, b, |a|, |b|);
        return None;
      }
      prev2 := prev;
      prev := cur;
      i := i + 1;
    }
    var d := prev[|b|];
    return if d <= max then Some(d) else None;
  }

  // ---------- The nearest known name ----------

  // The comparison of names is locale-defined; only that it is a strict order is used.
  ghost predicate StrictOrder(before: (Text, Text) -> bool) {
    && (forall x: Text :: !before(x, x))
    && (forall x: Text, y: Text, z: Text :: before(x, y) && before(y, z) ==> before(x, z))
  }

  ghost predicate IsHint(name: Text, known: seq<Text>, c: Text) {
    c in known && Distance(name, c) == 1
  }

  method NearestKnownName(name: Text, known: seq<Text>, before: (Text, Text) -> bool) returns (r: Option<Text>)
    requires StrictOrder(before)
    ensures r == None <==> name in known || forall c :: c in known ==> Distance(name, c) != 1
    ensures r.Some? ==> IsHint(name, known, r.value)
    ensures r.Some? ==> forall c :: IsHint(name, known, c) ==> !before(c, r.value)
  {
    if name in known {
      return None;
    }
    var best: Option<Text> := None;
    for n := 0 to |known|
      invariant best == None <==> forall c :: c in known[..n] ==> Distance(name, c) != 1
      invariant best.Some? ==> IsHint(name, known[..n], best.value)
      invariant best.Some? ==> forall c :: IsHint(name, known[..n], c) ==> !before(c, best.value)
    {
      assert known[..n + 1] == known[..n] + [known[n]];
      DistanceZeroIffEqual(name, known[n]);
      var distance := OsaDistanceAtMost(name, known[n], 1);
      if distance == None || distance.value != 1 {
        continue;
      }
      if best == None || before(known[n], best.value) {
        best := Some(known[n]);
      }
    }
    assert known[..|known|] == known;
    return best;
  }
}
