/** From raw lines to gap markers: the two collapse passes keep, for every line they deliver, the raw lines it
    stands for (output-filter/src/normalize.ts), and excerpts are numbered through them (types.ts). */
module LineProvenance {
  import opened Prelude
  import opened GapMarkers
  import CacheNamespace

  // Raw lines, counted from one, inclusive.
  datatype Span = Span(first: int, last: int)

  // A line of the filtered text with the raw lines it stands for.
  datatype Traced = Traced(text: string, span: Span)

  function Identity(raw: seq<string>): seq<Traced> {
    seq(|raw|, i requires 0 <= i < |raw| => Traced(raw[i], Span(i + 1, i + 1)))
  }

  function RepeatMarker(run: nat): string {
    "\U{2026} [repeated " + CacheNamespace.Decimal(run) + " times]"
  }

  function SimilarMarker(run: nat, template: string): string {
    "\U{2026} [" + CacheNamespace.Decimal(run) + " similar: " + template + "]"
  }

  // ---------- The two passes ----------

  // How many lines from j on repeat the text.
  function EqualRun(lines: seq<Traced>, text: string, j: nat): (run: nat)
    requires j <= |lines|
    ensures j + run <= |lines| && (forall k :: j <= k < j + run ==> lines[k].text == text)
    ensures j + run < |lines| ==> lines[j + run].text != text
    decreases |lines| - j
  {
    if j < |lines| && lines[j].text == text then 1 + EqualRun(lines, text, j + 1) else 0
  }

  // A repeated line is followed by a marker that stands for the whole run.
  function Repeats(lines: seq<Traced>, i: nat): seq<Traced>
    requires i <= |lines|
    decreases |lines| - i
  {
    if i == |lines| then []
    else
      RepeatGroup(lines, i, RepeatRun(lines, i)) + Repeats(lines, i + RepeatRun(lines, i))
  }

  function RepeatRun(lines: seq<Traced>, i: nat): (run: nat)
    requires i < |lines|
    ensures run >= 1 && i + run <= |lines|
  {
    1 + EqualRun(lines, lines[i].text, i + 1)
  }

  lemma RepeatsUnfold(lines: seq<Traced>, i: nat)
    requires i <= |lines|
    ensures i == |lines| ==> Repeats(lines, i) == []
    ensures i < |lines| ==>
      Repeats(lines, i) == RepeatGroup(lines, i, RepeatRun(lines, i)) + Repeats(lines, i + RepeatRun(lines, i))
  {
  }

  function RepeatGroup(lines: seq<Traced>, i: nat, run: nat): seq<Traced>
    requires 1 <= run && i + run <= |lines|
  {
    [lines[i]] + if run >= 2 then [Traced(RepeatMarker(run), Span(lines[i].span.first, lines[i + run - 1].span.last))] else []
  }

  method CollapseRepeatedLines(lines: seq<Traced>) returns (out: seq<Traced>)
    ensures out == Repeats(lines, 0)
  {
    hide RepeatMarker, Repeats;
    out := [];
    var i := 0;
    while i < |lines|
      invariant i <= |lines| && out + Repeats(lines, i) == Repeats(lines, 0)
    {
      RepeatsUnfold(lines, i);
      var run := 1;
      while i + run < |lines| && lines[i + run].text == lines[i].text
        invariant 1 <= run && i + run <= |lines|
        invariant 1 + EqualRun(lines, lines[i].text, i + 1) == run + EqualRun(lines, lines[i].text, i + run)
      {
        run := run + 1;
      }
      assert run == RepeatRun(lines, i);
      hide EqualRun, RepeatRun;
      ghost var before := out;
      out := out + [lines[i]];
      if run >= 2 {
        out := out + [Traced(RepeatMarker(run), Span(lines[i].span.first, lines[i + run - 1].span.last))];
      }
      assert out == before + RepeatGroup(lines, i, run);
      Regroup(before, RepeatGroup(lines, i, run), Repeats(lines, i + run));
      i := i + run;
    }
    RepeatsUnfold(lines, i);
  }

  // Lines that carry a diagnostic, and lines without volatile tokens, are never folded.
  datatype Folding = Folding(mask: string -> string, guarded: string -> bool)

  predicate Foldable(f: Folding, text: string) {
    !f.guarded(f.mask(text)) && f.mask(text) != text
  }

  // How many lines from j on have the template and may be folded.
  function SimilarRun(lines: seq<Traced>, f: Folding, template: string, j: nat): (run: nat)
    requires j <= |lines|
    ensures j + run <= |lines|
    ensures forall k :: j <= k < j + run ==> f.mask(lines[k].text) == template && !f.guarded(template)
    ensures j + run < |lines| ==> f.guarded(f.mask(lines[j + run].text)) || f.mask(lines[j + run].text) != template
    decreases |lines| - j
  {
    if j < |lines| && !f.guarded(f.mask(lines[j].text)) && f.mask(lines[j].text) == template
    then 1 + SimilarRun(lines, f, template, j + 1) else 0
  }

  function Similars(lines: seq<Traced>, f: Folding, i: nat): seq<Traced>
    requires i <= |lines|
    decreases |lines| - i
  {
    if i == |lines| then []
    else
      SimilarGroup(lines, i, FoldRun(lines, f, i), f.mask(lines[i].text)) + Similars(lines, f, i + FoldRun(lines, f, i))
  }

  function FoldRun(lines: seq<Traced>, f: Folding, i: nat): (run: nat)
    requires i < |lines|
    ensures run >= 1 && i + run <= |lines|
  {
    if Foldable(f, lines[i].text) then 1 + SimilarRun(lines, f, f.mask(lines[i].text), i + 1) else 1
  }

  // A line that is not folded is a run of its own.
  lemma SimilarsUnfold(lines: seq<Traced>, f: Folding, i: nat)
    requires i <= |lines|
    ensures i == |lines| ==> Similars(lines, f, i) == []
    ensures i < |lines| ==>
      var run := FoldRun(lines, f, i);
      Similars(lines, f, i) == SimilarGroup(lines, i, run, f.mask(lines[i].text)) + Similars(lines, f, i + run)
  {
    hide FoldRun, SimilarGroup;
  }

  // First, marker for what is between, last; short runs stay as they are.
  function SimilarGroup(lines: seq<Traced>, i: nat, run: nat, template: string): seq<Traced>
    requires 1 <= run && i + run <= |lines|
  {
    if run >= 3 then
      [lines[i], Traced(SimilarMarker(run, template), Span(lines[i + 1].span.first, lines[i + run - 2].span.last)),
       lines[i + run - 1]]
    else lines[i..i + run]
  }

  lemma SimilarGroupIs(lines: seq<Traced>, i: nat, run: nat, template: string)
    requires 1 <= run && i + run <= |lines|
    ensures run < 3 ==> SimilarGroup(lines, i, run, template) == lines[i..i + run]
    ensures run >= 3 ==>
      SimilarGroup(lines, i, run, template) == [lines[i]]
        + [Traced(SimilarMarker(run, template), Span(lines[i + 1].span.first, lines[i + run - 2].span.last))]
        + [lines[i + run - 1]]
  {
    hide SimilarMarker;
  }

  // The lines from i on that have its template, which is not guarded.
  method CountSimilar(lines: seq<Traced>, f: Folding, i: nat) returns (run: nat)
    requires i < |lines|
    ensures run == FoldRun(lines, f, i)
  {
    var template := f.mask(lines[i].text);
    if f.guarded(template) || template == lines[i].text {
      return 1;
    }
    run := 1;
    while i + run < |lines| && !f.guarded(f.mask(lines[i + run].text)) && f.mask(lines[i + run].text) == template
      invariant 1 <= run && i + run <= |lines|
      invariant 1 + SimilarRun(lines, f, template, i + 1) == run + SimilarRun(lines, f, template, i + run)
    {
      run := run + 1;
    }
  }

  method CollapseSimilar(lines: seq<Traced>, f: Folding) returns (out: seq<Traced>)
    ensures out == Similars(lines, f, 0)
  {
    hide SimilarMarker, Similars, SimilarRun, FoldRun, Foldable, SimilarGroup;
    out := [];
    var i := 0;
    while i < |lines|
      invariant i <= |lines| && out + Similars(lines, f, i) == Similars(lines, f, 0)
    {
      SimilarsUnfold(lines, f, i);
      var template := f.mask(lines[i].text);
      var run := CountSimilar(lines, f, i);
      ghost var before := out;
      if run >= 3 {
        out := out + [lines[i]];
        out := out + [Traced(SimilarMarker(run, template), Span(lines[i + 1].span.first, lines[i + run - 2].span.last))];
        out := out + [lines[i + run - 1]];
      } else {
        for k := 0 to run
          invariant out == before + lines[i..i + k]
        {
          out := out + [lines[i + k]];
        }
      }
      SimilarGroupIs(lines, i, run, template);
      assert out == before + SimilarGroup(lines, i, run, template);
      Regroup(before, SimilarGroup(lines, i, run, template), Similars(lines, f, i + run));
      i := i + run;
    }
    SimilarsUnfold(lines, f, i);
  }

  // ---------- The spans stay in order and leave nothing out ----------

  // How the lines that the two passes put in begin.
  predicate IsMarker(text: string) {
    "\U{2026} [" <= text
  }

  // The next line reaches further; it begins anew unless it is a marker, which may stand for earlier lines too.
  predicate Follows(s: Traced, t: Traced) {
    && s.span.first <= t.span.first <= s.span.last + 1 && s.span.last < t.span.last
    && (!IsMarker(t.text) ==> t.span.first == s.span.last + 1)
  }

  ghost predicate Orderly(lines: seq<Traced>) {
    && (forall k :: 0 <= k < |lines| ==> lines[k].span.first <= lines[k].span.last)
    && forall k :: 0 < k < |lines| ==> Follows(lines[k - 1], lines[k])
  }

  // From the first line given to the last, in order, no raw line between left out.
  ghost predicate Traces(lines: seq<Traced>, first: int, last: int) {
    Orderly(lines) && lines != [] && lines[0].span.first == first && lines[|lines| - 1].span.last == last
  }

  lemma {:induction false} SpansGrow(lines: seq<Traced>, i: nat, j: nat)
    requires Orderly(lines) && i <= j < |lines|
    ensures lines[i].span.first <= lines[j].span.first && lines[i].span.last <= lines[j].span.last
    ensures i < j ==> lines[i].span.last < lines[j].span.last
  {
    if i < j {
      SpansGrow(lines, i, j - 1);
      assert Follows(lines[j - 1], lines[j]);
    }
  }

  lemma OrderlyJoins(a: seq<Traced>, b: seq<Traced>)
    requires Orderly(a) && Orderly(b)
    requires a != [] && b != [] ==> Follows(a[|a| - 1], b[0])
    ensures Orderly(a + b)
  {
    hide Follows;
    forall k | 0 < k < |a + b| ensures Follows((a + b)[k - 1], (a + b)[k]) {
      if k == |a| {
      } else if k < |a| {
        assert Follows(a[k - 1], a[k]);
      } else {
        assert Follows(b[k - |a| - 1], b[k - |a|]);
      }
    }
  }

  // What a pass makes of the lines from i on.
  ghost predicate TracesFrom(out: seq<Traced>, lines: seq<Traced>, i: nat)
    requires i < |lines|
  {
    Traces(out, lines[i].span.first, lines[|lines| - 1].span.last) && out[0] == lines[i]
  }

  // What it makes of one run of them.
  ghost predicate TracesRun(group: seq<Traced>, lines: seq<Traced>, i: nat, run: nat)
    requires 1 <= run && i + run <= |lines|
  {
    && Traces(group, lines[i].span.first, lines[i + run - 1].span.last) && group[0] == lines[i]
    && (i + run < |lines| ==> Follows(group[|group| - 1], lines[i + run]))
  }

  lemma RunJoinsRest(group: seq<Traced>, rest: seq<Traced>, lines: seq<Traced>, i: nat, run: nat)
    requires 1 <= run && i + run <= |lines| && TracesRun(group, lines, i, run)
    requires if i + run < |lines| then TracesFrom(rest, lines, i + run) else rest == []
    ensures TracesFrom(group + rest, lines, i)
  {
    if i + run < |lines| {
      OrderlyJoins(group, rest);
    } else {
      assert group + rest == group;
    }
  }

  lemma RepeatGroupIsOrderly(lines: seq<Traced>, i: nat, run: nat)
    requires Orderly(lines) && 1 <= run && i + run <= |lines|
    ensures TracesRun(RepeatGroup(lines, i, run), lines, i, run)
  {
    SpansGrow(lines, i, i + run - 1);
    if i + run < |lines| {
      SpansGrow(lines, i, i + run);
      assert Follows(lines[i + run - 1], lines[i + run]);
    }
  }

  lemma {:induction false} RepeatsTrace(lines: seq<Traced>, i: nat)
    requires Orderly(lines) && i < |lines|
    ensures TracesFrom(Repeats(lines, i), lines, i)
    decreases |lines| - i
  {
    hide RepeatGroup, Repeats, RepeatRun, TracesFrom, TracesRun;
    var run := RepeatRun(lines, i);
    RepeatGroupIsOrderly(lines, i, run);
    RepeatsUnfold(lines, i);
    RepeatsUnfold(lines, i + run);
    if i + run < |lines| {
      RepeatsTrace(lines, i + run);
    }
    RunJoinsRest(RepeatGroup(lines, i, run), Repeats(lines, i + run), lines, i, run);
  }

  lemma SimilarGroupIsOrderly(lines: seq<Traced>, i: nat, run: nat, template: string)
    requires Orderly(lines) && 1 <= run && i + run <= |lines|
    ensures TracesRun(SimilarGroup(lines, i, run, template), lines, i, run)
  {
    if i + run < |lines| {
      assert Follows(lines[i + run - 1], lines[i + run]);
    }
    if run < 3 {
      ShortGroupIsOrderly(lines, i, run);
    } else {
      SpansGrow(lines, i + 1, i + run - 2);
      assert Follows(lines[i], lines[i + 1]);
      assert Follows(lines[i + run - 2], lines[i + run - 1]);
      SpansGrow(lines, i + 1, i + run - 1);
      SpansGrow(lines, i, i + run - 2);
      hide SimilarMarker;
      var marker := SimilarGroup(lines, i, run, template)[1];
      assert Follows(lines[i], marker) && Follows(marker, lines[i + run - 1]);
    }
  }

  lemma ShortGroupIsOrderly(lines: seq<Traced>, i: nat, run: nat)
    requires Orderly(lines) && 1 <= run && i + run <= |lines|
    ensures Traces(lines[i..i + run], lines[i].span.first, lines[i + run - 1].span.last)
  {
    hide Follows;
    var group := lines[i..i + run];
    forall k | 0 < k < run ensures Follows(group[k - 1], group[k]) {
      assert Follows(lines[i + k - 1], lines[i + k]);
    }
  }

  lemma {:induction false} SimilarsTrace(lines: seq<Traced>, f: Folding, i: nat)
    requires Orderly(lines) && i < |lines|
    ensures TracesFrom(Similars(lines, f, i), lines, i)
    decreases |lines| - i
  {
    hide SimilarGroup, Similars, FoldRun, TracesFrom, TracesRun;
    var run, template := FoldRun(lines, f, i), f.mask(lines[i].text);
    SimilarGroupIsOrderly(lines, i, run, template);
    SimilarsUnfold(lines, f, i);
    SimilarsUnfold(lines, f, i + run);
    if i + run < |lines| {
      SimilarsTrace(lines, f, i + run);
    }
    RunJoinsRest(SimilarGroup(lines, i, run, template), Similars(lines, f, i + run), lines, i, run);
  }

  // Of raw lines a marker names as many lines as it stands for.
  lemma MarkerCountsItsLines(raw: seq<string>, i: nat, run: nat)
    requires 2 <= run && i + run <= |raw|
    ensures var group := RepeatGroup(Identity(raw), i, run);
      && |group| == 2 && group[0] == Traced(raw[i], Span(i + 1, i + 1))
      && group[1].span == Span(i + 1, i + run)
      && group[1].text == "\U{2026} [repeated " + CacheNamespace.Decimal(group[1].span.last - group[1].span.first + 1) + " times]"
  {
    hide CacheNamespace.Decimal;
  }

  // The filtered text with its provenance.
  function Filtered(raw: seq<string>, f: Folding): seq<Traced> {
    Similars(Repeats(Identity(raw), 0), f, 0)
  }

  /** The lines of the filtered text stand, in order and without leaving one out, for all raw lines. */
  lemma FilteringLosesNoLine(raw: seq<string>, f: Folding)
    requires raw != []
    ensures Traces(Filtered(raw, f), 1, |raw|)
  {
    var lines := Identity(raw);
    assert Orderly(lines);
    RepeatsTrace(lines, 0);
    SimilarsTrace(Repeats(lines, 0), f, 0);
  }

  // ---------- Excerpts ----------

  // A piece of the filtered text, by its lines.
  datatype Chunk = Chunk(startLine: int, endLine: int, text: string)

  predicate InText(c: Chunk, lines: seq<Traced>) {
    1 <= c.startLine <= c.endLine <= |lines|
  }

  function JoinLines(lines: seq<Traced>): string {
    if lines == [] then "" else if |lines| == 1 then lines[0].text else lines[0].text + "\n" + JoinLines(lines[1..])
  }

  // The chunk's text is that of its lines.
  predicate Faithful(c: Chunk, lines: seq<Traced>) {
    InText(c, lines) && c.text == JoinLines(lines[c.startLine - 1..c.endLine])
  }

  // Consecutive pieces of `per` lines, the last one of what is left; the empty text has none.
  ghost predicate Pieces(chunks: seq<Chunk>, lines: seq<Traced>, start: nat, per: nat) {
    && (forall i :: 0 <= i < |chunks| ==>
          && Faithful(chunks[i], lines) && chunks[i].endLine - chunks[i].startLine < per
          && (chunks[i].endLine < |lines| ==> chunks[i].endLine - chunks[i].startLine == per - 1))
    && (forall i :: 0 < i < |chunks| ==> chunks[i].startLine == chunks[i - 1].endLine + 1)
    && (if chunks == [] then start == 0 else chunks[0].startLine == 1 && chunks[|chunks| - 1].endLine == start)
  }

  method ChunkByLines(lines: seq<Traced>, per: nat) returns (chunks: seq<Chunk>)
    requires lines != [] && per > 0
    ensures if lines[0].text == "" && |lines| == 1 then chunks == [] else Pieces(chunks, lines, |lines|, per)
  {
    chunks := [];
    if lines[0].text == "" && |lines| == 1 {
      return;
    }
    hide JoinLines, Pieces;
    assert Pieces([], lines, 0, per) by {
      NoPieces(lines, per);
    }
    var start := 0;
    while start < |lines|
      invariant start <= |lines| && Pieces(chunks, lines, start, per)
    {
      var end := if start + per < |lines| then start + per else |lines|;
      OneMorePiece(chunks, lines, start, end, per);
      chunks := chunks + [Chunk(start + 1, end, JoinLines(lines[start..end]))];
      start := end;
    }
  }

  lemma NoPieces(lines: seq<Traced>, per: nat)
    ensures Pieces([], lines, 0, per)
  {
  }

  lemma PieceIsFaithful(lines: seq<Traced>, start: nat, end: nat)
    requires start < end <= |lines|
    ensures Faithful(Chunk(start + 1, end, JoinLines(lines[start..end])), lines)
  {
    hide JoinLines;
  }

  lemma OneMorePiece(chunks: seq<Chunk>, lines: seq<Traced>, start: nat, end: nat, per: nat)
    requires start < end <= |lines| && end - start <= per && (end < |lines| ==> end - start == per)
    requires Pieces(chunks, lines, start, per)
    ensures Pieces(chunks + [Chunk(start + 1, end, JoinLines(lines[start..end]))], lines, end, per)
  {
    PieceIsFaithful(lines, start, end);
    hide JoinLines, Faithful;
    var more := chunks + [Chunk(start + 1, end, JoinLines(lines[start..end]))];
    assert forall i :: 0 <= i < |chunks| ==> more[i] == chunks[i];
  }

  function LineOr(lines: seq<Traced>, k: int, other: int): Option<Span> {
    if 0 <= k < |lines| then Some(lines[k].span) else if 0 <= other < |lines| then Some(lines[other].span) else None
  }

  function ExcerptOf(c: Chunk, lines: seq<Traced>): Excerpt {
    var start, end := LineOr(lines, c.startLine - 1, 0), LineOr(lines, c.endLine - 1, |lines| - 1);
    if start.Some? && end.Some? then Excerpt(c.startLine, c.endLine, Some(start.value.first), Some(end.value.last), c.text)
    else Excerpt(c.startLine, c.endLine, None, None, c.text)
  }

  function ExcerptsOf(chunks: seq<Chunk>, lines: seq<Traced>): seq<Excerpt> {
    seq(|chunks|, i requires 0 <= i < |chunks| => ExcerptOf(chunks[i], lines))
  }

  predicate StandsFor(t: Traced, line: int) {
    t.span.first <= line <= t.span.last
  }

  // A filtered line within the chunk's range stands for the raw line.
  ghost predicate InRangeOf(c: Chunk, lines: seq<Traced>, line: int) {
    exists k :: c.startLine - 1 <= k < c.endLine && 0 <= k < |lines| && StandsFor(lines[k], line)
  }

  ghost predicate InKeptRange(chunks: seq<Chunk>, lines: seq<Traced>, line: int) {
    exists i :: 0 <= i < |chunks| && InRangeOf(chunks[i], lines, line)
  }

  // The chunk's text begins with the lines of its range up to the k-th, that one whole.
  predicate Holds(c: Chunk, lines: seq<Traced>, k: int) {
    && 1 <= c.startLine <= k + 1 && k < c.endLine && k < |lines|
    && var text := JoinLines(lines[c.startLine - 1..k + 1]);
    (c.text == text || text + "\n" <= c.text)
  }

  ghost predicate ShownBy(c: Chunk, lines: seq<Traced>, line: int) {
    exists k :: Holds(c, lines, k) && StandsFor(lines[k], line)
  }

  // The text of some kept chunk holds a line that stands for the raw line.
  ghost predicate Shown(chunks: seq<Chunk>, lines: seq<Traced>, line: int) {
    exists i :: 0 <= i < |chunks| && ShownBy(chunks[i], lines, line)
  }

  lemma {:induction false} RangeIsFilled(lines: seq<Traced>, a: nat, b: nat, line: int)
    requires Orderly(lines) && a <= b < |lines| && lines[a].span.first <= line <= lines[b].span.last
    ensures exists k :: a <= k <= b && StandsFor(lines[k], line)
  {
    if line >= lines[b].span.first {
      assert StandsFor(lines[b], line);
    } else if a < b {
      assert Follows(lines[b - 1], lines[b]);
      RangeIsFilled(lines, a, b - 1, line);
    }
  }

  lemma ChunkCoversItsLines(c: Chunk, lines: seq<Traced>, line: int)
    requires Orderly(lines) && InText(c, lines)
    ensures var e := ExcerptOf(c, lines);
      HasRawLines(e) && (First(e) <= line <= Last(e) <==> InRangeOf(c, lines, line))
  {
    var a, b := c.startLine - 1, c.endLine - 1;
    if lines[a].span.first <= line <= lines[b].span.last {
      RangeIsFilled(lines, a, b, line);
    }
    if k :| a <= k <= b && StandsFor(lines[k], line) {
      SpansGrow(lines, a, k);
      SpansGrow(lines, k, b);
    }
  }

  lemma CoveredIsInRange(chunks: seq<Chunk>, lines: seq<Traced>, line: int)
    requires Orderly(lines) && forall i :: 0 <= i < |chunks| ==> InText(chunks[i], lines)
    ensures Covered(ExcerptsOf(chunks, lines), line) <==> InKeptRange(chunks, lines, line)
  {
    hide Orderly, ExcerptOf, InRangeOf, InText;
    var es := ExcerptsOf(chunks, lines);
    forall i | 0 <= i < |chunks|
      ensures First(es[i]) <= line <= Last(es[i]) <==> InRangeOf(chunks[i], lines, line)
    {
      ChunkCoversItsLines(chunks[i], lines, line);
    }
  }

  // An excerpt whose raw lines are those of its filtered lines.
  ghost predicate Numbered(e: Excerpt, lines: seq<Traced>) {
    1 <= e.startLine <= e.endLine <= |lines| && First(e) == lines[e.startLine - 1].span.first
  }

  lemma OrderedExcerptsGrow(chunks: seq<Chunk>, lines: seq<Traced>, i: nat, j: nat)
    requires Orderly(lines) && forall k :: 0 <= k < |chunks| ==> InText(chunks[k], lines)
    requires i < j < |Ordered(ExcerptsOf(chunks, lines))|
    ensures var es := Ordered(ExcerptsOf(chunks, lines)); First(es[i]) <= First(es[j])
  {
    var given := ExcerptsOf(chunks, lines);
    var es := Ordered(given);
    OrderedIsAPermutation(given);
    hide Ordered;
    assert forall e :: e in given ==> Numbered(e, lines);
    assert es[i] in multiset(given) && es[j] in multiset(given);
    assert Precedes(es[i], es[j]);
    SpansGrow(lines, es[i].startLine - 1, es[j].startLine - 1);
  }

  /** Whatever chunks of the filtered text are kept, in whatever order, the rendered markers name exactly the raw
      lines outside the kept ranges. */
  lemma MarkedIffOutOfRange(summary: string, raw: seq<string>, f: Folding, chunks: seq<Chunk>, line: int)
    requires raw != [] && 1 <= line <= |raw|
    requires forall i :: 0 <= i < |chunks| ==> InText(chunks[i], Filtered(raw, f))
    ensures MarkedIn(summary, raw, f, chunks, line) <==> !InKeptRange(chunks, Filtered(raw, f), line)
  {
    var lines := Filtered(raw, f);
    FilteringLosesNoLine(raw, f);
    var es := ExcerptsOf(chunks, lines);
    hide Filtered, Ordered, InKeptRange, Covered, Rendering, Marked;
    forall i, j | 0 <= i < j < |Ordered(es)| ensures First(Ordered(es)[i]) <= First(Ordered(es)[j]) {
      OrderedExcerptsGrow(chunks, lines, i, j);
    }
    MonotoneExcerptsHaveTrueMarkers(summary, |raw|, es, line);
    CoveredIsInRange(chunks, lines, line);
  }

  // ---------- What the reader is shown ----------

  ghost predicate MarkedIn(summary: string, raw: seq<string>, f: Folding, chunks: seq<Chunk>, line: int) {
    Marked(Rendering(summary, Some(|raw|), ExcerptsOf(chunks, Filtered(raw, f))), line)
  }

  // The markers name exactly the raw lines that no kept text stands for.
  ghost predicate Exact(summary: string, raw: seq<string>, f: Folding, chunks: seq<Chunk>) {
    forall line :: 1 <= line <= |raw| ==>
      (MarkedIn(summary, raw, f, chunks, line) <==> !Shown(chunks, Filtered(raw, f), line))
  }

  /** The markers are exact just when the kept texts show every raw line of their ranges. */
  lemma MarkersAreExactIff(summary: string, raw: seq<string>, f: Folding, chunks: seq<Chunk>)
    requires raw != []
    requires forall i :: 0 <= i < |chunks| ==> InText(chunks[i], Filtered(raw, f))
    ensures Exact(summary, raw, f, chunks) <==>
      forall line :: 1 <= line <= |raw| && InKeptRange(chunks, Filtered(raw, f), line)
        ==> Shown(chunks, Filtered(raw, f), line)
  {
    hide Filtered, MarkedIn, InKeptRange, Shown;
    var lines := Filtered(raw, f);
    forall line | 1 <= line <= |raw|
      ensures MarkedIn(summary, raw, f, chunks, line) <==> !InKeptRange(chunks, lines, line)
      ensures Shown(chunks, lines, line) ==> InKeptRange(chunks, lines, line)
    {
      MarkedIffOutOfRange(summary, raw, f, chunks, line);
      ShownIsInRange(chunks, lines, line);
    }
  }

  lemma ShownIsInRange(chunks: seq<Chunk>, lines: seq<Traced>, line: int)
    ensures Shown(chunks, lines, line) ==> InKeptRange(chunks, lines, line)
  {
    if i :| 0 <= i < |chunks| && ShownBy(chunks[i], lines, line) {
      assert InRangeOf(chunks[i], lines, line);
    }
  }

  lemma {:induction false} JoinSplits(front: seq<Traced>, back: seq<Traced>)
    requires front != [] && back != []
    ensures JoinLines(front + back) == JoinLines(front) + "\n" + JoinLines(back)
  {
    if |front| == 1 {
      assert (front + back)[1..] == back;
    } else {
      JoinSplits(front[1..], back);
      assert (front + back)[1..] == front[1..] + back;
    }
  }

  lemma FaithfulHolds(c: Chunk, lines: seq<Traced>, k: nat)
    requires Faithful(c, lines) && c.startLine - 1 <= k < c.endLine
    ensures Holds(c, lines, k)
  {
    hide JoinLines;
    if k + 1 < c.endLine {
      var front, back := lines[c.startLine - 1..k + 1], lines[k + 1..c.endLine];
      assert lines[c.startLine - 1..c.endLine] == front + back;
      JoinSplits(front, back);
    }
  }

  lemma FaithfulShows(c: Chunk, lines: seq<Traced>, line: int)
    requires Faithful(c, lines)
    ensures InRangeOf(c, lines, line) ==> ShownBy(c, lines, line)
  {
    hide Holds, JoinLines;
    if k :| c.startLine - 1 <= k < c.endLine && 0 <= k < |lines| && StandsFor(lines[k], line) {
      FaithfulHolds(c, lines, k);
    }
  }

  /** Kept chunks that hold the text of their ranges, like all pieces by lines, have exact markers. */
  lemma DeliveredMarkersAreExact(summary: string, raw: seq<string>, f: Folding, chunks: seq<Chunk>)
    requires raw != []
    requires forall i :: 0 <= i < |chunks| ==> Faithful(chunks[i], Filtered(raw, f))
    ensures Exact(summary, raw, f, chunks)
  {
    hide Filtered, Exact, InRangeOf, ShownBy, JoinLines;
    MarkersAreExactIff(summary, raw, f, chunks);
    var lines := Filtered(raw, f);
    forall line | InKeptRange(chunks, lines, line) ensures Shown(chunks, lines, line) {
      var i :| 0 <= i < |chunks| && InRangeOf(chunks[i], lines, line);
      FaithfulShows(chunks[i], lines, line);
    }
  }

  // The last raw line of the k-th line: none before it stands for it, and none after it if the next one begins anew.
  lemma OthersMissTheLast(lines: seq<Traced>, k: nat, other: nat)
    requires Orderly(lines) && k < |lines| && other < |lines|
    ensures other < k ==> !StandsFor(lines[other], lines[k].span.last)
    ensures k < other && !IsMarker(lines[k + 1].text) ==> !StandsFor(lines[other], lines[k].span.last)
  {
    if other < k {
      SpansGrow(lines, other, k);
    } else if k < other {
      SpansGrow(lines, k + 1, other);
      assert Follows(lines[k], lines[k + 1]);
    }
  }

  // ---------- The one excerpt cut to the budget ----------

  function Newlines(text: string): nat {
    if text == "" then 0 else (if text[0] == '\n' then 1 else 0) + Newlines(text[1..])
  }

  // Cut after n characters; the last line is counted from the text that is left.
  function Cut(c: Chunk, n: nat): Chunk
    requires n <= |c.text|
  {
    Chunk(c.startLine, c.startLine + Newlines(c.text[..n]), c.text[..n])
  }

  ghost predicate SingleLines(lines: seq<Traced>) {
    forall k :: 0 <= k < |lines| ==> '\n' !in lines[k].text
  }

  lemma {:induction false} NewlinesSplit(a: string, b: string)
    ensures Newlines(a + b) == Newlines(a) + Newlines(b)
  {
    if a == "" {
      assert a + b == b;
    } else {
      NewlinesSplit(a[1..], b);
      assert (a + b)[1..] == a[1..] + b;
    }
  }

  lemma {:induction false} NoNewlines(text: string)
    requires '\n' !in text
    ensures Newlines(text) == 0
  {
    if text != "" {
      NoNewlines(text[1..]);
    }
  }

  lemma {:induction false} JoinHasNewlines(lines: seq<Traced>)
    requires lines != []
    ensures Newlines(JoinLines(lines)) >= |lines| - 1
  {
    if |lines| > 1 {
      JoinHasNewlines(lines[1..]);
      NewlinesSplit(lines[0].text + "\n", JoinLines(lines[1..]));
      NewlinesSplit(lines[0].text, "\n");
    }
  }

  // The cut text ends with a whole line exactly where a line of the original ends.
  lemma {:induction false} CutAtALineEnd(lines: seq<Traced>, n: nat)
    requires lines != [] && SingleLines(lines) && n <= |JoinLines(lines)|
    ensures var text := JoinLines(lines);
      var m := Newlines(text[..n]);
      m < |lines| && (text[..n] == JoinLines(lines[..m + 1]) <==> n == |text| || text[n] == '\n')
  {
    if n <= |lines[0].text| {
      CutInTheFirst(lines, n);
    } else {
      JoinUnfolds(lines);
      hide JoinLines, Newlines;
      CutAtALineEnd(lines[1..], n - |lines[0].text| - 1);
      CutPastTheFirst(lines, n);
    }
  }

  lemma JoinUnfolds(lines: seq<Traced>)
    requires lines != []
    ensures |lines| == 1 ==> JoinLines(lines) == lines[0].text
    ensures |lines| > 1 ==> JoinLines(lines) == lines[0].text + "\n" + JoinLines(lines[1..])
  {
  }

  lemma CutInTheFirst(lines: seq<Traced>, n: nat)
    requires lines != [] && '\n' !in lines[0].text && n <= |lines[0].text|
    ensures var text := JoinLines(lines);
      && n <= |text| && Newlines(text[..n]) == 0
      && (text[..n] == JoinLines(lines[..1]) <==> n == |text| || text[n] == '\n')
  {
    var text, first := JoinLines(lines), lines[0].text;
    JoinUnfolds(lines);
    JoinUnfolds(lines[..1]);
    hide JoinLines, Newlines;
    assert text[..n] == first[..n];
    NoNewlines(first[..n]);
    assert n < |first| ==> text[n] == first[n];
  }

  lemma CutOfTwo(head: string, after: string, n: nat)
    requires |head| <= n <= |head + after|
    ensures (head + after)[..n] == head + after[..n - |head|]
    ensures n < |head + after| ==> (head + after)[n] == after[n - |head|]
  {
  }

  // A cut past the first line is a cut of the rest.
  lemma CutPastTheFirst(lines: seq<Traced>, n: nat)
    requires |lines| > 1 && '\n' !in lines[0].text && |lines[0].text| < n <= |JoinLines(lines)|
    ensures var rest, n' := lines[1..], n - |lines[0].text| - 1;
      var text, after := JoinLines(lines), JoinLines(rest);
      && n' <= |after| && |text| - n == |after| - n' && (n < |text| ==> text[n] == after[n'])
      && Newlines(text[..n]) == Newlines(after[..n']) + 1
      && var m := Newlines(after[..n']);
      m < |rest| ==> (text[..n] == JoinLines(lines[..m + 2]) <==> after[..n'] == JoinLines(rest[..m + 1]))
  {
    hide Newlines, JoinLines;
    var rest, n' := lines[1..], n - |lines[0].text| - 1;
    var head, after := lines[0].text + "\n", JoinLines(rest);
    JoinUnfolds(lines);
    CutOfTwo(head, after, n);
    NewlinesSplit(head, after[..n']);
    NewlinesSplit(lines[0].text, "\n");
    NoNewlines(lines[0].text);
    OneNewline();
    var m := Newlines(after[..n']);
    if m < |rest| {
      assert lines[..m + 2][0] == lines[0] && lines[..m + 2][1..] == rest[..m + 1];
      JoinUnfolds(lines[..m + 2]);
      SameTail(head, after[..n'], JoinLines(rest[..m + 1]));
    }
  }

  lemma SameTail(head: string, a: string, b: string)
    ensures head + a == head + b <==> a == b
  {
    if head + a == head + b {
      assert a == (head + a)[|head|..] == b;
    }
  }

  lemma CutIsInText(c: Chunk, lines: seq<Traced>, n: nat)
    requires Faithful(c, lines) && SingleLines(lines) && n <= |c.text|
    ensures InText(Cut(c, n), lines)
    ensures Faithful(Cut(c, n), lines) <==> n == |c.text| || c.text[n] == '\n'
  {
    hide JoinLines, Newlines;
    var own := lines[c.startLine - 1..c.endLine];
    CutAtALineEnd(own, n);
    FrontOfSlice(lines, c.startLine - 1, c.endLine, Newlines(c.text[..n]) + 1);
  }

  lemma FrontOfSlice<T>(s: seq<T>, from: nat, to: nat, n: nat)
    requires from <= to <= |s| && n <= to - from
    ensures s[from..to][..n] == s[from..from + n]
  {
  }

  // A text with too few line ends cannot hold the last line and another end.
  lemma CutLineIsNotHeld(c: Chunk, lines: seq<Traced>, n: nat)
    requires n <= |c.text| && InText(Cut(c, n), lines) && Holds(Cut(c, n), lines, Cut(c, n).endLine - 1)
    ensures Faithful(Cut(c, n), lines)
  {
    hide JoinLines, Newlines;
    var d := Cut(c, n);
    var own := lines[d.startLine - 1..d.endLine];
    JoinHasNewlines(own);
    if JoinLines(own) + "\n" <= d.text {
      var more := JoinLines(own) + "\n";
      assert d.text == more + d.text[|more|..];
      NewlinesSplit(more, d.text[|more|..]);
      NewlinesSplit(JoinLines(own), "\n");
      OneNewline();
    }
  }

  lemma OneNewline()
    ensures Newlines("\n") == 1
  {
    var text := "\n";
    NoNewlines(text[1..]);
  }

  /** When even the best chunk is cut to the budget, the markers are exact just when it is cut at a line end:
      a line cut in the middle is not shown whole, nor is it named. */
  lemma CutMarkersAreExactIff(summary: string, raw: seq<string>, f: Folding, c: Chunk, n: nat)
    requires raw != [] && SingleLines(Filtered(raw, f))
    requires Faithful(c, Filtered(raw, f)) && n <= |c.text|
    ensures Exact(summary, raw, f, [Cut(c, n)]) <==> n == |c.text| || c.text[n] == '\n'
  {
    var lines, d := Filtered(raw, f), Cut(c, n);
    CutIsInText(c, lines, n);
    hide *;
    if Faithful(d, lines) {
      OneIsAll(d, lines);
      DeliveredMarkersAreExact(summary, raw, f, [d]);
    } else {
      UnshownLastLine(summary, raw, f, d, c, n);
    }
  }

  lemma OneIsAll(d: Chunk, lines: seq<Traced>)
    requires Faithful(d, lines)
    ensures forall i :: 0 <= i < |[d]| ==> Faithful([d][i], lines)
  {
  }

  lemma UnshownLastLine(summary: string, raw: seq<string>, f: Folding, d: Chunk, c: Chunk, n: nat)
    requires raw != [] && n <= |c.text| && d == Cut(c, n)
    requires InText(d, Filtered(raw, f)) && !Faithful(d, Filtered(raw, f))
    ensures !Exact(summary, raw, f, [d])
  {
    hide Filtered, Exact, Cut, Faithful, InKeptRange, Shown, Follows;
    var lines, k := Filtered(raw, f), d.endLine - 1;
    FilteringLosesNoLine(raw, f);
    CutLineIsNotShown(lines, c, n);
    MarkersAreExactIff(summary, raw, f, [d]);
    SpansGrow(lines, 0, k);
    SpansGrow(lines, k, |lines| - 1);
    assert 1 <= lines[k].span.last <= |raw|;
  }

  lemma CutLineIsNotShown(lines: seq<Traced>, c: Chunk, n: nat)
    requires Orderly(lines) && n <= |c.text|
    requires InText(Cut(c, n), lines) && !Faithful(Cut(c, n), lines)
    ensures var d := Cut(c, n); var line := lines[d.endLine - 1].span.last;
      InKeptRange([d], lines, line) && !Shown([d], lines, line)
  {
    hide JoinLines, Newlines, Holds, Follows, Cut, Faithful;
    var d := Cut(c, n);
    var k := d.endLine - 1;
    var line := lines[k].span.last;
    assert StandsFor(lines[k], line);
    assert InRangeOf([d][0], lines, line);
    forall other | Holds(d, lines, other) ensures 0 <= other < |lines| && !StandsFor(lines[other], line) {
      HeldIsInRange(d, lines, other);
      OthersMissTheLast(lines, k, other);
      if other == k {
        CutLineIsNotHeld(c, lines, n);
      }
    }
  }

  lemma HeldIsInRange(c: Chunk, lines: seq<Traced>, k: int)
    requires Holds(c, lines, k)
    ensures 0 <= c.startLine - 1 <= k < c.endLine && k < |lines|
  {
  }
}
