/** Rendering kept excerpts with markers for what was left out (context-gate/src/record-output.ts). */
module GapMarkers {
  import opened Prelude

  // Lines in the filtered text, and in the raw output when they are known.
  datatype Excerpt = Excerpt(startLine: int, endLine: int, rawStart: Option<int>, rawEnd: Option<int>, text: string)

  // One line group of the rendering.
  datatype Part = Summary(text: string) | Kept(excerpt: Excerpt) | LinesOmitted(first: int, last: int) | RemainderOmitted

  predicate Precedes(a: Excerpt, b: Excerpt) {
    a.startLine < b.startLine || (a.startLine == b.startLine && a.endLine <= b.endLine)
  }

  // A stable insertion: after everything that may come first.
  function Insert(sorted: seq<Excerpt>, e: Excerpt): seq<Excerpt> {
    if sorted == [] || Precedes(sorted[|sorted| - 1], e) then sorted + [e]
    else Insert(sorted[..|sorted| - 1], e) + [sorted[|sorted| - 1]]
  }

  function Ordered(excerpts: seq<Excerpt>): seq<Excerpt> {
    if excerpts == [] then [] else Insert(Ordered(excerpts[..|excerpts| - 1]), excerpts[|excerpts| - 1])
  }

  predicate HasRawLines(e: Excerpt) {
    e.rawStart.Some? && e.rawEnd.Some?
  }

  function First(e: Excerpt): int {
    e.rawStart.GetOr(0)
  }

  function Last(e: Excerpt): int {
    e.rawEnd.GetOr(0)
  }

  predicate Addressable(rawLineCount: Option<int>, excerpts: seq<Excerpt>) {
    rawLineCount.Some? && forall i :: 0 <= i < |excerpts| ==> HasRawLines(excerpts[i])
  }

  // The first raw line past everything rendered.
  function Cursor(es: seq<Excerpt>): int {
    if es == [] then 1 else Max(Cursor(es[..|es| - 1]), Last(es[|es| - 1]) + 1)
  }

  function Gap(cursor: int, next: int): seq<Part> {
    if next > cursor then [LinesOmitted(cursor, next - 1)] else []
  }

  function Walk(es: seq<Excerpt>): seq<Part> {
    if es == [] then []
    else
      var n := |es| - 1;
      Walk(es[..n]) + Gap(Cursor(es[..n]), First(es[n])) + [Kept(es[n])]
  }

  function KeptParts(es: seq<Excerpt>): seq<Part> {
    seq(|es|, i requires 0 <= i < |es| => Kept(es[i]))
  }

  function Rendering(summary: string, rawLineCount: Option<int>, excerpts: seq<Excerpt>): seq<Part> {
    var es := Ordered(excerpts);
    if !Addressable(rawLineCount, excerpts)
    then [Summary(summary)] + KeptParts(es) + if es != [] then [RemainderOmitted] else []
    else [Summary(summary)] + Walk(es) + Gap(Cursor(es), rawLineCount.value + 1)
  }

  lemma WalkOneMore(es: seq<Excerpt>, k: nat)
    requires k < |es|
    ensures Walk(es[..k + 1]) == Walk(es[..k])
      + (if First(es[k]) > Cursor(es[..k]) then [LinesOmitted(Cursor(es[..k]), First(es[k]) - 1)] else []) + [Kept(es[k])]
  {
    assert es[..k + 1][..k] == es[..k];
  }

  lemma GapIsAMarker(cursor: int, next: int)
    ensures Gap(cursor, next) == if next > cursor then [LinesOmitted(cursor, next - 1)] else []
    ensures Walk([]) == []
  {
  }

  method SortExcerpts(excerpts: seq<Excerpt>) returns (sorted: seq<Excerpt>)
    ensures sorted == Ordered(excerpts)
  {
    sorted := [];
    for k := 0 to |excerpts|
      invariant sorted == Ordered(excerpts[..k])
    {
      assert excerpts[..k + 1][..k] == excerpts[..k];
      sorted := Insert(sorted, excerpts[k]);
    }
    assert excerpts[..|excerpts|] == excerpts;
  }

  method ReturnedParts(summary: string, rawLineCount: Option<int>, excerpts: seq<Excerpt>) returns (parts: seq<Part>)
    ensures parts == Rendering(summary, rawLineCount, excerpts)
  {
    var es := SortExcerpts(excerpts);
    parts := [Summary(summary)];
    hide Ordered, HasRawLines, Gap, Walk;
    if !Addressable(rawLineCount, excerpts) {
      for k := 0 to |es|
        invariant parts == [Summary(summary)] + KeptParts(es[..k])
      {
        parts := parts + [Kept(es[k])];
      }
      assert es[..|es|] == es;
      if |es| > 0 {
        parts := parts + [RemainderOmitted];
      }
      return;
    }
    var cursor := 1;
    GapIsAMarker(0, 0);
    for k := 0 to |es|
      invariant parts == [Summary(summary)] + Walk(es[..k]) && cursor == Cursor(es[..k])
    {
      assert es[..k + 1][..k] == es[..k];
      WalkOneMore(es, k);
      if First(es[k]) > cursor {
        parts := parts + [LinesOmitted(cursor, First(es[k]) - 1)];
      }
      parts := parts + [Kept(es[k])];
      cursor := Max(cursor, Last(es[k]) + 1);
    }
    assert es[..|es|] == es;
    GapIsAMarker(cursor, rawLineCount.value + 1);
    if cursor <= rawLineCount.value {
      parts := parts + [LinesOmitted(cursor, rawLineCount.value)];
    }
  }

  // ---------- Every excerpt once, in order ----------

  ghost predicate InOrder(es: seq<Excerpt>) {
    forall i, j :: 0 <= i < j < |es| ==> Precedes(es[i], es[j])
  }

  lemma {:induction false} InsertAddsOne(sorted: seq<Excerpt>, e: Excerpt)
    ensures multiset(Insert(sorted, e)) == multiset(sorted) + multiset{e}
  {
    if sorted != [] && !Precedes(sorted[|sorted| - 1], e) {
      var n := |sorted| - 1;
      InsertAddsOne(sorted[..n], e);
      assert sorted == sorted[..n] + [sorted[n]];
    }
  }

  lemma {:induction false} InsertKeepsOrder(sorted: seq<Excerpt>, e: Excerpt)
    requires InOrder(sorted)
    ensures InOrder(Insert(sorted, e))
  {
    if sorted != [] && !Precedes(sorted[|sorted| - 1], e) {
      var n := |sorted| - 1;
      InsertKeepsOrder(sorted[..n], e);
      var front := Insert(sorted[..n], e);
      InsertAddsOne(sorted[..n], e);
      forall i | 0 <= i < |front| ensures Precedes(front[i], sorted[n]) {
        assert front[i] in multiset(front);
        if front[i] != e {
          assert front[i] in multiset(sorted[..n]);
          var j :| 0 <= j < n && sorted[..n][j] == front[i];
        }
      }
    }
  }

  lemma {:induction false} OrderedIsAPermutation(excerpts: seq<Excerpt>)
    ensures var es := Ordered(excerpts);
      multiset(es) == multiset(excerpts) && InOrder(es)
  {
    if excerpts != [] {
      var n := |excerpts| - 1;
      OrderedIsAPermutation(excerpts[..n]);
      InsertAddsOne(Ordered(excerpts[..n]), excerpts[n]);
      InsertKeepsOrder(Ordered(excerpts[..n]), excerpts[n]);
      assert excerpts == excerpts[..n] + [excerpts[n]];
    }
  }

  function KeptIn(parts: seq<Part>): seq<Excerpt> {
    if parts == [] then []
    else
      var n := |parts| - 1;
      KeptIn(parts[..n]) + if parts[n].Kept? then [parts[n].excerpt] else []
  }

  lemma {:induction false} KeptInSplits(p: seq<Part>, q: seq<Part>)
    ensures KeptIn(p + q) == KeptIn(p) + KeptIn(q)
  {
    if q == [] {
      assert p + q == p;
    } else {
      var n := |q| - 1;
      assert (p + q)[..|p + q| - 1] == p + q[..n];
      KeptInSplits(p, q[..n]);
    }
  }

  lemma KeptInOne(p: Part)
    ensures KeptIn([p]) == if p.Kept? then [p.excerpt] else []
    ensures KeptIn([]) == []
  {
    assert [p][..0] == [];
    assert KeptIn([]) == [];
  }

  lemma NoneKeptInGap(cursor: int, next: int)
    ensures KeptIn(Gap(cursor, next)) == []
  {
    KeptInOne(LinesOmitted(cursor, next - 1));
  }

  lemma KeptInThree(p: seq<Part>, q: seq<Part>, r: seq<Part>)
    ensures KeptIn(p + q + r) == KeptIn(p) + KeptIn(q) + KeptIn(r)
  {
    KeptInSplits(p, q);
    KeptInSplits(p + q, r);
  }

  lemma {:induction false} WalkKeepsAll(es: seq<Excerpt>)
    ensures KeptIn(Walk(es)) == es
  {
    hide KeptIn, Gap;
    if es == [] {
      KeptInOne(RemainderOmitted);
    } else {
      var n := |es| - 1;
      WalkKeepsAll(es[..n]);
      KeptInThree(Walk(es[..n]), Gap(Cursor(es[..n]), First(es[n])), [Kept(es[n])]);
      NoneKeptInGap(Cursor(es[..n]), First(es[n]));
      KeptInOne(Kept(es[n]));
      assert es == es[..n] + [] + [es[n]];
    }
  }

  lemma {:induction false} KeptPartsKeepAll(es: seq<Excerpt>)
    ensures KeptIn(KeptParts(es)) == es
  {
    hide KeptIn;
    if es == [] {
      KeptInOne(RemainderOmitted);
      assert KeptParts(es) == [];
    } else {
      var n := |es| - 1;
      KeptPartsKeepAll(es[..n]);
      assert KeptParts(es) == KeptParts(es[..n]) + [Kept(es[n])];
      KeptInSplits(KeptParts(es[..n]), [Kept(es[n])]);
      KeptInOne(Kept(es[n]));
    }
  }

  lemma RenderingKeepsOrdered(summary: string, rawLineCount: Option<int>, excerpts: seq<Excerpt>)
    ensures KeptIn(Rendering(summary, rawLineCount, excerpts)) == Ordered(excerpts)
  {
    hide KeptIn, Gap, Walk, Ordered, KeptParts;
    var es := Ordered(excerpts);
    KeptInOne(Summary(summary));
    KeptInOne(RemainderOmitted);
    if Addressable(rawLineCount, excerpts) {
      WalkKeepsAll(es);
      NoneKeptInGap(Cursor(es), rawLineCount.value + 1);
      KeptInThree([Summary(summary)], Walk(es), Gap(Cursor(es), rawLineCount.value + 1));
    } else {
      KeptPartsKeepAll(es);
      KeptInThree([Summary(summary)], KeptParts(es), if es != [] then [RemainderOmitted] else []);
    }
    assert [] + es + [] == es;
  }

  /** Every excerpt is rendered once, in the order of the filtered text. */
  lemma RenderingKeepsAll(summary: string, rawLineCount: Option<int>, excerpts: seq<Excerpt>)
    ensures var kept := KeptIn(Rendering(summary, rawLineCount, excerpts));
      && multiset(kept) == multiset(excerpts)
      && InOrder(kept)
  {
    OrderedIsAPermutation(excerpts);
    RenderingKeepsOrdered(summary, rawLineCount, excerpts);
  }

  // ---------- What the markers say ----------

  ghost predicate Covered(es: seq<Excerpt>, line: int) {
    exists i :: 0 <= i < |es| && First(es[i]) <= line <= Last(es[i])
  }

  ghost predicate Marked(parts: seq<Part>, line: int) {
    exists k :: 0 <= k < |parts| && Marks(parts[k], line)
  }

  predicate Marks(p: Part, line: int) {
    p.LinesOmitted? && p.first <= line <= p.last
  }

  lemma MarkedSplits(p: seq<Part>, q: seq<Part>, line: int)
    ensures Marked(p + q, line) <==> Marked(p, line) || Marked(q, line)
  {
    if Marked(p, line) {
      var k :| 0 <= k < |p| && Marks(p[k], line);
      assert (p + q)[k] == p[k];
    } else if Marked(q, line) {
      var k :| 0 <= k < |q| && Marks(q[k], line);
      assert (p + q)[|p| + k] == q[k];
    }
  }

  lemma MarkedByGap(cursor: int, next: int, line: int)
    ensures Marked(Gap(cursor, next), line) <==> cursor <= line < next
  {
    if cursor <= line < next {
      assert Marks(Gap(cursor, next)[0], line);
    }
  }

  // The gap before the i-th excerpt holds the line.
  predicate InGapBefore(es: seq<Excerpt>, i: nat, line: int)
    requires i < |es|
  {
    Cursor(es[..i]) <= line < First(es[i])
  }

  lemma {:induction false} MarkedByWalk(es: seq<Excerpt>, line: int)
    ensures Marked(Walk(es), line) <==> exists i :: 0 <= i < |es| && InGapBefore(es, i, line)
  {
    if es != [] {
      var n := |es| - 1;
      var front := es[..n];
      MarkedByWalk(front, line);
      MarkedByGap(Cursor(front), First(es[n]), line);
      MarkedSplits(Walk(front), Gap(Cursor(front), First(es[n])), line);
      MarkedSplits(Walk(front) + Gap(Cursor(front), First(es[n])), [Kept(es[n])], line);
      assert !Marked([Kept(es[n])], line);
      forall i | 0 <= i < n ensures InGapBefore(front, i, line) <==> InGapBefore(es, i, line) {
        assert front[..i] == es[..i];
      }
      assert InGapBefore(es, n, line) <==> Cursor(front) <= line < First(es[n]);
      if i :| 0 <= i < |es| && InGapBefore(es, i, line) {
        if i < n {
          assert InGapBefore(front, i, line);
        }
      }
      if Marked(Walk(front), line) {
        var i :| 0 <= i < n && InGapBefore(front, i, line);
        assert InGapBefore(es, i, line);
      }
    }
  }

  lemma {:induction false} CursorIsPastAll(es: seq<Excerpt>, k: nat)
    ensures Cursor(es) >= 1
    ensures k < |es| ==> Last(es[k]) < Cursor(es)
  {
    if es != [] {
      CursorIsPastAll(es[..|es| - 1], k);
    }
  }

  lemma {:induction false} WalkLosesNoLine(es: seq<Excerpt>, line: int)
    requires 1 <= line < Cursor(es)
    ensures Covered(es, line) || exists i :: 0 <= i < |es| && InGapBefore(es, i, line)
  {
    var n := |es| - 1;
    var front := es[..n];
    if line < Cursor(front) {
      WalkLosesNoLine(front, line);
      if Covered(front, line) {
        var i :| 0 <= i < n && First(front[i]) <= line <= Last(front[i]);
        assert es[i] == front[i];
      } else {
        var i :| 0 <= i < n && InGapBefore(front, i, line);
        assert front[..i] == es[..i];
        assert InGapBefore(es, i, line);
      }
    } else if First(es[n]) <= line {
      assert First(es[n]) <= line <= Last(es[n]);
    } else {
      assert InGapBefore(es, n, line);
    }
  }

  lemma MarkedByRendering(summary: string, total: int, excerpts: seq<Excerpt>, line: int)
    requires Addressable(Some(total), excerpts)
    ensures var es := Ordered(excerpts);
      Marked(Rendering(summary, Some(total), excerpts), line) <==>
        (exists i :: 0 <= i < |es| && InGapBefore(es, i, line)) || Cursor(es) <= line <= total
  {
    var es := Ordered(excerpts);
    MarkedByWalk(es, line);
    MarkedByGap(Cursor(es), total + 1, line);
    MarkedSplits([Summary(summary)], Walk(es), line);
    MarkedSplits([Summary(summary)] + Walk(es), Gap(Cursor(es), total + 1), line);
    assert !Marked([Summary(summary)], line);
  }

  /** No raw line disappears: it is in an excerpt or in a marker. */
  lemma NoLineIsLost(summary: string, total: int, excerpts: seq<Excerpt>, line: int)
    requires Addressable(Some(total), excerpts) && 1 <= line <= total
    ensures Covered(excerpts, line) || Marked(Rendering(summary, Some(total), excerpts), line)
  {
    var es := Ordered(excerpts);
    MarkedByRendering(summary, total, excerpts, line);
    if line < Cursor(es) {
      WalkLosesNoLine(es, line);
      CoveredInAnyOrder(excerpts, line);
    }
  }

  lemma CoveredInAnyOrder(excerpts: seq<Excerpt>, line: int)
    ensures Covered(Ordered(excerpts), line) <==> Covered(excerpts, line)
  {
    OrderedIsAPermutation(excerpts);
    var es := Ordered(excerpts);
    if Covered(es, line) {
      var i :| 0 <= i < |es| && First(es[i]) <= line <= Last(es[i]);
      assert es[i] in multiset(excerpts);
      var j :| 0 <= j < |excerpts| && excerpts[j] == es[i];
    }
    if Covered(excerpts, line) {
      var j :| 0 <= j < |excerpts| && First(excerpts[j]) <= line <= Last(excerpts[j]);
      assert excerpts[j] in multiset(es);
      var i :| 0 <= i < |es| && es[i] == excerpts[j];
    }
  }

  lemma SameCount(excerpts: seq<Excerpt>)
    ensures Ordered(excerpts) == [] <==> excerpts == []
  {
    OrderedIsAPermutation(excerpts);
    hide Ordered;
    assert |multiset(Ordered(excerpts))| == |multiset(excerpts)|;
  }

  /** When raw lines are not known no marker names any: there is only the remark that more was left out, after the
      excerpts if there are any. */
  lemma UnaddressedNamesNoLine(summary: string, rawLineCount: Option<int>, excerpts: seq<Excerpt>, line: int)
    requires !Addressable(rawLineCount, excerpts)
    ensures var parts := Rendering(summary, rawLineCount, excerpts);
      && !Marked(parts, line)
      && if excerpts == [] then RemainderOmitted !in parts
         else parts[|parts| - 1] == RemainderOmitted && RemainderOmitted !in parts[..|parts| - 1]
  {
    SameCount(excerpts);
    hide Ordered, HasRawLines;
    var es := Ordered(excerpts);
    var front := [Summary(summary)] + KeptParts(es);
    assert forall k :: 0 <= k < |front| ==> front[k].Summary? || front[k].Kept?;
    if es != [] {
      assert (front + [RemainderOmitted])[..|front|] == front;
    }
  }

  // A later excerpt holds lines the walk had already left behind as a gap.
  predicate StepsBack(es: seq<Excerpt>, i: nat, j: nat)
    requires i < j < |es|
  {
    && Cursor(es[..i]) < First(es[i])
    && First(es[j]) <= Last(es[j])
    && First(es[j]) < First(es[i]) && Cursor(es[..i]) <= Last(es[j])
  }

  /** Every marker is true, that is no marked line is in an excerpt, exactly when no excerpt steps back in the
      raw output while it comes later in the filtered text. */
  lemma MarkersAreTrueIff(summary: string, total: int, excerpts: seq<Excerpt>)
    requires Addressable(Some(total), excerpts)
    ensures (forall line :: Marked(Rendering(summary, Some(total), excerpts), line) ==> !Covered(excerpts, line))
      <==> forall i, j :: 0 <= i < j < |Ordered(excerpts)| ==> !StepsBack(Ordered(excerpts), i, j)
  {
    var es := Ordered(excerpts);
    hide Ordered, Rendering, Marked, Covered, Addressable;
    if i, j :| 0 <= i < j < |es| && StepsBack(es, i, j) {
      BackstepIsMarked(summary, total, excerpts, i, j);
    } else {
      hide StepsBack;
      forall line | Marked(Rendering(summary, Some(total), excerpts), line)
        ensures !Covered(excerpts, line)
      {
        MarkedIsUncovered(summary, total, excerpts, line);
      }
    }
  }

  lemma BackstepIsMarked(summary: string, total: int, excerpts: seq<Excerpt>, i: nat, j: nat)
    requires Addressable(Some(total), excerpts)
    requires i < j < |Ordered(excerpts)| && StepsBack(Ordered(excerpts), i, j)
    ensures exists line :: Marked(Rendering(summary, Some(total), excerpts), line) && Covered(excerpts, line)
  {
    var es := Ordered(excerpts);
    var line := Max(Cursor(es[..i]), First(es[j]));
    MarkedByRendering(summary, total, excerpts, line);
    CoveredInAnyOrder(excerpts, line);
    hide Ordered, Rendering, Marked, Cursor;
    assert InGapBefore(es, i, line);
    assert First(es[j]) <= line <= Last(es[j]);
  }

  lemma MarkedIsUncovered(summary: string, total: int, excerpts: seq<Excerpt>, line: int)
    requires Addressable(Some(total), excerpts) && Marked(Rendering(summary, Some(total), excerpts), line)
    requires forall i, j :: 0 <= i < j < |Ordered(excerpts)| ==> !StepsBack(Ordered(excerpts), i, j)
    ensures !Covered(excerpts, line)
  {
    var es := Ordered(excerpts);
    MarkedByRendering(summary, total, excerpts, line);
    CoveredInAnyOrder(excerpts, line);
    hide Ordered, Rendering, Marked, Cursor, Covered, InGapBefore, StepsBack;
    assert forall i, j :: 0 <= i < j < |es| ==> !StepsBack(es, i, j);
    forall j | 0 <= j < |es| ensures !(First(es[j]) <= line <= Last(es[j])) {
      if i :| 0 <= i < |es| && InGapBefore(es, i, line) {
        assert i < j ==> !StepsBack(es, i, j);
        GapMissesExcerpt(es, i, j, line);
      } else {
        PastEverything(es, j, line);
      }
    }
    NotCovered(es, line);
  }

  lemma PastEverything(es: seq<Excerpt>, j: nat, line: int)
    requires j < |es| && Cursor(es) <= line
    ensures !(First(es[j]) <= line <= Last(es[j]))
  {
    hide Cursor;
    CursorIsPastAll(es, j);
  }

  lemma GapMissesExcerpt(es: seq<Excerpt>, i: nat, j: nat, line: int)
    requires i < |es| && j < |es| && InGapBefore(es, i, line) && (i < j ==> !StepsBack(es, i, j))
    ensures !(First(es[j]) <= line <= Last(es[j]))
  {
    hide Cursor;
    if j < i {
      CursorIsPastAll(es[..i], j);
      assert es[..i][j] == es[j];
    }
  }

  lemma NotCovered(es: seq<Excerpt>, line: int)
    requires forall j :: 0 <= j < |es| ==> !(First(es[j]) <= line <= Last(es[j]))
    ensures !Covered(es, line)
  {
  }

  /** In particular when the raw order agrees with the filtered order. */
  lemma MonotoneExcerptsHaveTrueMarkers(summary: string, total: int, excerpts: seq<Excerpt>, line: int)
    requires Addressable(Some(total), excerpts)
    requires forall i, j :: 0 <= i < j < |Ordered(excerpts)| ==> First(Ordered(excerpts)[i]) <= First(Ordered(excerpts)[j])
    requires 1 <= line <= total
    ensures Marked(Rendering(summary, Some(total), excerpts), line) <==> !Covered(excerpts, line)
  {
    MarkersAreTrueIff(summary, total, excerpts);
    NoLineIsLost(summary, total, excerpts, line);
  }
}
