/** Excerpts of `go test` output: failing test blocks are kept, and one chunk records what was left out
    (output-filter/src/parsers/go-test.ts). Its range is the hull of what it records, its text is a count. */
module GoTestOmission {
  import opened Prelude
  import opened GapMarkers
  import opened LineProvenance
  import CacheNamespace

  // ---------- Recognising lines ----------

  predicate IsSpace(c: char) {
    || c in "\t\n\U{B}\U{C}\r \U{A0}\U{1680}\U{2028}\U{2029}\U{202F}\U{205F}\U{3000}\U{FEFF}"
    || '\U{2000}' <= c <= '\U{200A}'
  }

  predicate IsBlank(text: string) {
    forall i :: 0 <= i < |text| ==> IsSpace(text[i])
  }

  predicate IsRun(text: string) {
    "=== RUN" <= text && |text| > 7 && IsSpace(text[7])
  }

  predicate IsLineStart(text: string, at: nat)
    requires at <= |text|
  {
    at == 0 || text[at - 1] in "\n\r\U{2028}\U{2029}"
  }

  // From a line start, at most 64 blanks and then the words.
  predicate BeginsAt(text: string, at: nat, indent: nat, words: string)
    requires at + indent <= |text|
  {
    IsLineStart(text, at) && IsBlank(text[at..at + indent]) && words <= text[at + indent..]
  }

  predicate HasLine(text: string, words: string) {
    exists at: nat, indent: nat ::
      at <= |text| && indent <= 64 && at + indent <= |text| && BeginsAt(text, at, indent, words)
  }

  predicate IsFailing(text: string) {
    HasLine(text, "--- FAIL:") || HasLine(text, "panic:")
  }

  // ---------- The parse ----------

  // The lines below n that start a test block.
  function Starts(lines: seq<Traced>, n: nat): (starts: seq<nat>)
    requires n <= |lines|
  {
    if n == 0 then [] else Starts(lines, n - 1) + if IsRun(lines[n - 1].text) then [n - 1] else []
  }

  predicate Ascending(starts: seq<nat>, n: nat) {
    && (forall i :: 0 <= i < |starts| ==> starts[i] < n)
    && forall i, j :: 0 <= i < j < |starts| ==> starts[i] < starts[j]
  }

  lemma {:induction false} StartsAreTheRuns(lines: seq<Traced>, n: nat)
    requires n <= |lines|
    ensures Ascending(Starts(lines, n), n)
    ensures forall s: nat :: s < n ==> (s in Starts(lines, n) <==> IsRun(lines[s].text))
  {
    hide IsRun;
    if n > 0 {
      StartsAreTheRuns(lines, n - 1);
      var front := Starts(lines, n - 1);
      assert Starts(lines, n) == front + if IsRun(lines[n - 1].text) then [n - 1] else [];
      hide Starts;
      StaysAscending(front, n - 1);
    }
  }

  lemma StaysAscending(front: seq<nat>, n: nat)
    requires Ascending(front, n)
    ensures Ascending(front, n + 1) && Ascending(front + [n], n + 1)
  {
  }

  // A block reaches to the next one.
  function BlockEnd(lines: seq<Traced>, starts: seq<nat>, b: nat): nat {
    if b + 1 < |starts| then starts[b + 1] else |lines|
  }

  function BlockText(lines: seq<Traced>, starts: seq<nat>, b: nat): string
    requires Ascending(starts, |lines|) && b < |starts|
  {
    JoinLines(lines[starts[b]..BlockEnd(lines, starts, b)])
  }

  predicate IsPassing(lines: seq<Traced>, starts: seq<nat>, b: nat)
    requires Ascending(starts, |lines|) && b < |starts|
  {
    !IsFailing(BlockText(lines, starts, b))
  }

  function BlockChunk(lines: seq<Traced>, starts: seq<nat>, b: nat): Chunk
    requires Ascending(starts, |lines|) && b < |starts|
  {
    Chunk(starts[b] + 1, BlockEnd(lines, starts, b), BlockText(lines, starts, b))
  }

  // The passing blocks, and the chunks of the failing ones, among the first n.
  function Passing(lines: seq<Traced>, starts: seq<nat>, n: nat): (passing: seq<nat>)
    requires Ascending(starts, |lines|) && n <= |starts|
    ensures Ascending(passing, n) && forall b :: b in passing ==> IsPassing(lines, starts, b)
  {
    if n == 0 then []
    else Passing(lines, starts, n - 1) + if IsPassing(lines, starts, n - 1) then [n - 1] else []
  }

  function FailingChunks(lines: seq<Traced>, starts: seq<nat>, n: nat): seq<Chunk>
    requires Ascending(starts, |lines|) && n <= |starts|
  {
    if n == 0 then []
    else FailingChunks(lines, starts, n - 1) + if IsPassing(lines, starts, n - 1) then [] else [BlockChunk(lines, starts, n - 1)]
  }

  function CountFilled(lines: seq<Traced>, n: nat): nat
    requires n <= |lines|
  {
    if n == 0 then 0 else CountFilled(lines, n - 1) + if IsBlank(lines[n - 1].text) then 0 else 1
  }

  // The lines with text before the first block; without a block there is no preamble.
  function Preamble(lines: seq<Traced>, starts: seq<nat>): nat
    requires Ascending(starts, |lines|)
  {
    if starts == [] then 0 else CountFilled(lines, starts[0])
  }

  function Count(n: nat, what: string): string {
    CacheNamespace.Decimal(n) + " " + what + if n == 1 then "" else "s"
  }

  function Named(passing: nat, preamble: nat): string {
    (if passing > 0 then Count(passing, "passing test block") else "")
    + (if passing > 0 && preamble > 0 then ", " else "")
    + (if preamble > 0 then Count(preamble, "preamble line") else "")
  }

  function OmissionText(passing: nat, preamble: nat): string {
    "\U{2026} [" + Named(passing, preamble) + " omitted \U{2014} recoverable via stored chunks]"
  }

  // From the first line left out to the last, whatever lies between.
  function OmissionChunk(lines: seq<Traced>, starts: seq<nat>, passing: seq<nat>, preamble: nat): Chunk
    requires Ascending(starts, |lines|) && starts != [] && (passing == [] ==> preamble > 0)
    requires Ascending(passing, |starts|)
  {
    Chunk(
      if preamble > 0 then 1 else starts[passing[0]] + 1,
      if passing == [] then starts[0] else BlockEnd(lines, starts, passing[|passing| - 1]),
      OmissionText(|passing|, preamble))
  }

  datatype Parse = Parse(chunks: seq<Chunk>, omission: Option<Chunk>, dropped: nat)

  // The omission chunk comes only beside kept blocks.
  function ParseOf(lines: seq<Traced>): Parse {
    StartsAreTheRuns(lines, |lines|);
    var starts := Starts(lines, |lines|);
    var kept, passing := FailingChunks(lines, starts, |starts|), Passing(lines, starts, |starts|);
    var preamble := Preamble(lines, starts);
    if (passing == [] && preamble == 0) || kept == [] then Parse(kept, None, 0)
    else
      Parse(kept, Some(OmissionChunk(lines, starts, passing, preamble)), |passing| + if preamble > 0 then 1 else 0)
  }

  function Chunks(p: Parse): seq<Chunk> {
    p.chunks + if p.omission.Some? then [p.omission.value] else []
  }

  // The running hull is that of the first and the last passing block.
  ghost predicate Hull(lines: seq<Traced>, starts: seq<nat>, passing: seq<nat>, from: nat, to: nat)
    requires Ascending(passing, |starts|)
  {
    if passing == [] then from == |lines| && to == 0
    else from == starts[passing[0]] && to == BlockEnd(lines, starts, passing[|passing| - 1])
  }

  lemma HullGrows(lines: seq<Traced>, starts: seq<nat>, passing: seq<nat>, b: nat, from: nat, to: nat)
    requires Ascending(starts, |lines|) && b < |starts| && Ascending(passing, b)
    requires Hull(lines, starts, passing, from, to)
    ensures Hull(lines, starts, passing + [b], if starts[b] < from then starts[b] else from,
              Max(to, BlockEnd(lines, starts, b)))
  {
  }

  lemma OneMoreBlock(lines: seq<Traced>, starts: seq<nat>, b: nat)
    requires Ascending(starts, |lines|) && b < |starts|
    ensures IsFailing(BlockText(lines, starts, b)) ==>
      && Passing(lines, starts, b + 1) == Passing(lines, starts, b)
      && FailingChunks(lines, starts, b + 1) == FailingChunks(lines, starts, b) + [BlockChunk(lines, starts, b)]
    ensures !IsFailing(BlockText(lines, starts, b)) ==>
      && Passing(lines, starts, b + 1) == Passing(lines, starts, b) + [b]
      && FailingChunks(lines, starts, b + 1) == FailingChunks(lines, starts, b)
  {
    hide IsFailing, BlockText;
  }

  lemma NoBlocks(lines: seq<Traced>, starts: seq<nat>)
    requires Ascending(starts, |lines|)
    ensures Passing(lines, starts, 0) == [] && FailingChunks(lines, starts, 0) == []
    ensures Hull(lines, starts, [], |lines|, 0)
  {
  }

  method FindStarts(lines: seq<Traced>) returns (starts: seq<nat>)
    ensures starts == Starts(lines, |lines|)
  {
    starts := [];
    for i := 0 to |lines|
      invariant starts == Starts(lines, i)
    {
      if IsRun(lines[i].text) {
        starts := starts + [i];
      }
    }
  }

  // The failing blocks, how many pass, and the hull of those that pass.
  method SortBlocks(lines: seq<Traced>, starts: seq<nat>)
    returns (chunks: seq<Chunk>, passing: nat, from: nat, to: nat)
    requires Ascending(starts, |lines|)
    ensures chunks == FailingChunks(lines, starts, |starts|) && passing == |Passing(lines, starts, |starts|)|
    ensures Hull(lines, starts, Passing(lines, starts, |starts|), from, to)
  {
    hide IsFailing, JoinLines, Passing, FailingChunks, Hull;
    chunks, passing, from, to := [], 0, |lines|, 0;
    NoBlocks(lines, starts);
    for b := 0 to |starts|
      invariant chunks == FailingChunks(lines, starts, b) && passing == |Passing(lines, starts, b)|
      invariant Hull(lines, starts, Passing(lines, starts, b), from, to)
    {
      OneMoreBlock(lines, starts, b);
      var start, end := starts[b], if b + 1 < |starts| then starts[b + 1] else |lines|;
      var text := JoinLines(lines[start..end]);
      if !IsFailing(text) {
        HullGrows(lines, starts, Passing(lines, starts, b), b, from, to);
        passing := passing + 1;
        if start < from {
          from := start;
        }
        if end > to {
          to := end;
        }
      } else {
        chunks := chunks + [Chunk(start + 1, end, text)];
      }
    }
  }

  method CountPreamble(lines: seq<Traced>, starts: seq<nat>) returns (preamble: nat)
    requires Ascending(starts, |lines|)
    ensures preamble == Preamble(lines, starts)
  {
    preamble := 0;
    if starts != [] {
      for i := 0 to starts[0]
        invariant preamble == CountFilled(lines, i)
      {
        if !IsBlank(lines[i].text) {
          preamble := preamble + 1;
        }
      }
    }
  }

  method ParseGoTest(lines: seq<Traced>) returns (chunks: seq<Chunk>, dropped: nat)
    ensures chunks == Chunks(ParseOf(lines)) && dropped == ParseOf(lines).dropped
  {
    hide IsRun, IsFailing, JoinLines, OmissionText, Starts, Passing, FailingChunks;
    StartsAreTheRuns(lines, |lines|);
    var starts := FindStarts(lines);
    var passing, from, to;
    chunks, passing, from, to := SortBlocks(lines, starts);
    var preamble := CountPreamble(lines, starts);
    if preamble > 0 && starts != [] {
      from, to := 0, Max(to, starts[0]);
    }
    if (passing == 0 && preamble == 0) || chunks == [] {
      return chunks, 0;
    }
    chunks := chunks + [Chunk(from + 1, to, OmissionText(passing, preamble))];
    dropped := passing + if preamble > 0 then 1 else 0;
  }

  // ---------- What is left out ----------

  lemma BlockFacts(lines: seq<Traced>, starts: seq<nat>, b: nat)
    requires starts == Starts(lines, |lines|) && Ascending(starts, |lines|) && b < |starts|
    ensures starts[b] < BlockEnd(lines, starts, b) <= |lines|
    ensures IsRun(lines[starts[b]].text)
    ensures BlockEnd(lines, starts, b) < |lines| ==> IsRun(lines[BlockEnd(lines, starts, b)].text)
    ensures Faithful(BlockChunk(lines, starts, b), lines)
  {
    hide Starts, IsRun, JoinLines;
    StartsAreTheRuns(lines, |lines|);
    assert starts[b] in starts;
    assert b + 1 < |starts| ==> starts[b + 1] in starts;
  }

  lemma {:induction false} FailingChunksAreBlocks(lines: seq<Traced>, starts: seq<nat>, n: nat, c: Chunk)
    requires Ascending(starts, |lines|) && n <= |starts| && c in FailingChunks(lines, starts, n)
    ensures exists b :: 0 <= b < n && c == BlockChunk(lines, starts, b) && !IsPassing(lines, starts, b)
  {
    hide BlockChunk, IsPassing;
    if c in FailingChunks(lines, starts, n - 1) {
      FailingChunksAreBlocks(lines, starts, n - 1, c);
    }
  }

  lemma CountIsOneLine(n: nat, what: string)
    requires '\n' !in what
    ensures '\n' !in Count(n, what)
  {
    CacheNamespace.DecimalIsDigits(n);
    hide CacheNamespace.Decimal;
  }

  lemma NamedIsOneLine(passing: nat, preamble: nat)
    ensures '\n' !in Named(passing, preamble)
  {
    CountIsOneLine(passing, "passing test block");
    CountIsOneLine(preamble, "preamble line");
    hide Count;
  }

  // The recorded text is one line, and one that no test run prints.
  lemma OmissionTextIsOneLine(passing: nat, preamble: nat)
    ensures '\n' !in OmissionText(passing, preamble)
    ensures !IsRun(OmissionText(passing, preamble))
  {
    NamedIsOneLine(passing, preamble);
    hide Named;
    assert OmissionText(passing, preamble)[0] == '\U{2026}';
  }

  lemma RunIsNoMarker(text: string)
    requires IsRun(text)
    ensures !IsMarker(text)
  {
    assert text[0] == '=';
  }

  predicate Spans(c: Chunk, k: int) {
    c.startLine - 1 <= k < c.endLine
  }

  // A line in the recorded range, outside the kept blocks, followed by a test block or nothing.
  ghost predicate EndsOmitted(lines: seq<Traced>, p: Parse, z: nat)
    requires p.omission.Some?
  {
    && Spans(p.omission.value, z) && z < |lines|
    && (z + 1 < |lines| ==> !IsMarker(lines[z + 1].text))
    && (forall c :: c in p.chunks ==> !Spans(c, z))
    && (p.omission.value.startLine == z + 1 && p.omission.value.text == lines[z].text ==>
          z == 0 && p.omission.value.endLine == 1)
  }

  // The blocks that are left out.
  function OmittedBlocks(lines: seq<Traced>): seq<nat> {
    StartsAreTheRuns(lines, |lines|);
    Passing(lines, Starts(lines, |lines|), |Starts(lines, |lines|)|)
  }

  lemma BlocksAreDisjoint(lines: seq<Traced>, starts: seq<nat>, b: nat, c: nat)
    requires Ascending(starts, |lines|) && b < |starts| && c < |starts| && b != c
    requires starts[b] < BlockEnd(lines, starts, b)
    ensures !Spans(BlockChunk(lines, starts, c), BlockEnd(lines, starts, b) - 1)
  {
    hide JoinLines;
  }

  lemma OmittedBlockEnds(lines: seq<Traced>, b: nat)
    requires b in OmittedBlocks(lines) && ParseOf(lines).omission.Some?
    ensures b < |Starts(lines, |lines|)|
    ensures var z := BlockEnd(lines, Starts(lines, |lines|), b) - 1;
      z >= 0 && EndsOmitted(lines, ParseOf(lines), z)
  {
    hide IsRun, JoinLines, IsMarker, OmissionText, IsFailing, Starts, Passing, FailingChunks;
    StartsAreTheRuns(lines, |lines|);
    var starts, p, passing := Starts(lines, |lines|), ParseOf(lines), OmittedBlocks(lines);
    var z := BlockEnd(lines, starts, b) - 1;
    BlockFacts(lines, starts, b);
    if z + 1 < |lines| {
      RunIsNoMarker(lines[z + 1].text);
    }
    forall c | c in p.chunks ensures !Spans(c, z) {
      FailingChunksAreBlocks(lines, starts, |starts|, c);
      var d :| 0 <= d < |starts| && c == BlockChunk(lines, starts, d) && !IsPassing(lines, starts, d);
      BlocksAreDisjoint(lines, starts, b, d);
    }
    var preamble := Preamble(lines, starts);
    OmissionTextIsOneLine(|passing|, preamble);
    HullHoldsBlock(lines, starts, passing, preamble, b);
  }

  lemma HullHoldsBlock(lines: seq<Traced>, starts: seq<nat>, passing: seq<nat>, preamble: nat, b: nat)
    requires Ascending(starts, |lines|) && starts != [] && Ascending(passing, |starts|) && b in passing
    ensures var c := OmissionChunk(lines, starts, passing, preamble);
      && c.startLine <= starts[b] + 1 && BlockEnd(lines, starts, b) <= c.endLine
      && (c.startLine == 1 || c.startLine == starts[passing[0]] + 1)
  {
    hide OmissionText;
    var i :| 0 <= i < |passing| && passing[i] == b;
    assert i > 0 ==> passing[0] < b;
    assert i < |passing| - 1 ==> b < passing[|passing| - 1];
  }

  // Without a passing block it is the preamble that is left out.
  lemma PreambleIsOmitted(lines: seq<Traced>)
    requires ParseOf(lines).omission.Some? && OmittedBlocks(lines) == []
    ensures Ascending(Starts(lines, |lines|), |lines|)
    ensures var starts, p := Starts(lines, |lines|), ParseOf(lines);
      && starts != [] && starts[0] > 0 && Preamble(lines, starts) > 0
      && p.omission == Some(Chunk(1, starts[0], OmissionText(0, Preamble(lines, starts))))
      && p.chunks == FailingChunks(lines, starts, |starts|)
  {
    hide IsRun, JoinLines, OmissionText, IsFailing, Starts, Passing, FailingChunks, IsBlank;
    StartsAreTheRuns(lines, |lines|);
  }

  lemma EndsAtFirstBlock(lines: seq<Traced>, first: nat, p: Parse)
    requires 0 < first < |lines| && !IsMarker(lines[first].text)
    requires p.omission.Some? && p.omission.value.startLine == 1 && p.omission.value.endLine == first
    requires forall c :: c in p.chunks ==> first < c.startLine
    ensures EndsOmitted(lines, p, first - 1)
  {
    hide IsMarker;
  }

  lemma FirstStartIsARun(lines: seq<Traced>)
    ensures var starts := Starts(lines, |lines|);
      starts != [] ==> (starts[0] < |lines| && IsRun(lines[starts[0]].text))
  {
    hide Starts, IsRun;
    StartsAreTheRuns(lines, |lines|);
    var starts := Starts(lines, |lines|);
    assert starts != [] ==> starts[0] in starts;
  }

  lemma PreambleEnds(lines: seq<Traced>)
    requires ParseOf(lines).omission.Some? && OmittedBlocks(lines) == []
    ensures var starts := Starts(lines, |lines|);
      starts != [] && starts[0] > 0 && EndsOmitted(lines, ParseOf(lines), starts[0] - 1)
  {
    hide *;
    PreambleIsOmitted(lines);
    FirstStartIsARun(lines);
    var starts, p := Starts(lines, |lines|), ParseOf(lines);
    RunIsNoMarker(lines[starts[0]].text);
    forall c | c in p.chunks ensures starts[0] < c.startLine {
      FailingStartsLater(lines, starts, c);
    }
    EndsAtFirstBlock(lines, starts[0], p);
  }

  lemma FailingStartsLater(lines: seq<Traced>, starts: seq<nat>, c: Chunk)
    requires Ascending(starts, |lines|) && c in FailingChunks(lines, starts, |starts|)
    ensures starts != [] && starts[0] < c.startLine
  {
    hide IsPassing, JoinLines;
    FailingChunksAreBlocks(lines, starts, |starts|, c);
  }

  lemma SomeLineEndsOmitted(lines: seq<Traced>) returns (z: nat)
    requires ParseOf(lines).omission.Some?
    ensures EndsOmitted(lines, ParseOf(lines), z)
  {
    hide ParseOf, OmittedBlocks, Starts, EndsOmitted;
    if OmittedBlocks(lines) == [] {
      PreambleEnds(lines);
      z := Starts(lines, |lines|)[0] - 1;
    } else {
      OmittedBlockEnds(lines, OmittedBlocks(lines)[0]);
      z := BlockEnd(lines, Starts(lines, |lines|), OmittedBlocks(lines)[0]) - 1;
    }
  }

  lemma ParsedChunks(lines: seq<Traced>)
    ensures var p := ParseOf(lines);
      && (forall c :: c in p.chunks ==> Faithful(c, lines))
      && (p.omission.Some? ==> '\n' !in p.omission.value.text && InText(p.omission.value, lines))
  {
    hide IsRun, JoinLines, IsMarker, OmissionText, IsFailing, Starts, Passing, FailingChunks;
    StartsAreTheRuns(lines, |lines|);
    var starts, p, passing := Starts(lines, |lines|), ParseOf(lines), OmittedBlocks(lines);
    forall c | c in p.chunks ensures Faithful(c, lines) {
      FailingChunksAreBlocks(lines, starts, |starts|, c);
      var d :| 0 <= d < |starts| && c == BlockChunk(lines, starts, d) && !IsPassing(lines, starts, d);
      BlockFacts(lines, starts, d);
    }
    if p.omission.Some? {
      OmissionTextIsOneLine(|passing|, Preamble(lines, starts));
      if passing != [] {
        HullHoldsBlock(lines, starts, passing, Preamble(lines, starts), passing[0]);
        BlockFacts(lines, starts, passing[0]);
        BlockFacts(lines, starts, passing[|passing| - 1]);
      }
    }
  }

  lemma NewlineInPrefix(text: string, whole: string)
    ensures text <= whole && '\n' in text ==> '\n' in whole
    ensures text + "\n" <= whole ==> '\n' in whole
  {
    if text + "\n" <= whole {
      assert whole[|text|] == '\n';
    }
  }

  // One line of text holds the first line of its range at most.
  lemma OneLineHolds(c: Chunk, lines: seq<Traced>, k: int)
    requires '\n' !in c.text && Holds(c, lines, k)
    ensures 0 <= k < |lines| && k == c.startLine - 1 && c.text == lines[k].text
  {
    var own := lines[c.startLine - 1..k + 1];
    NewlineInPrefix(JoinLines(own), c.text);
    JoinOfSeveral(own);
  }

  lemma JoinOfSeveral(lines: seq<Traced>)
    ensures |lines| > 1 ==> '\n' in JoinLines(lines)
  {
    if |lines| > 1 {
      assert JoinLines(lines) == lines[0].text + "\n" + JoinLines(lines[1..]);
    }
  }

  // No parsed chunk shows the last raw line of what is left out.
  lemma EndIsNotShownBy(lines: seq<Traced>, p: Parse, c: Chunk, z: nat)
    requires Orderly(lines) && p.omission.Some? && EndsOmitted(lines, p, z) && '\n' !in p.omission.value.text
    requires c in p.chunks || c == p.omission.value
    requires p.omission.value.startLine == 1 && p.omission.value.endLine == 1 ==> p.omission.value.text != lines[0].text
    ensures !ShownBy(c, lines, lines[z].span.last)
  {
    hide JoinLines, IsMarker, Orderly;
    if k :| Holds(c, lines, k) && 0 <= k < |lines| && StandsFor(lines[k], lines[z].span.last) {
      HeldIsInRange(c, lines, k);
      OthersMissTheLast(lines, z, k);
      OneLineHolds(p.omission.value, lines, k);
    }
  }

  /** Of the excerpts of `go test` output, the markers are exact just when the omission chunk is not kept, or is
      itself the one line it replaces. */
  lemma GoTestMarkersAreExactIff(summary: string, raw: seq<string>, f: Folding, kept: seq<Chunk>)
    requires raw != []
    requires forall i :: 0 <= i < |kept| ==> kept[i] in Chunks(ParseOf(Filtered(raw, f)))
    ensures Exact(summary, raw, f, kept) <==>
      var lines := Filtered(raw, f);
      var omission := ParseOf(lines).omission;
      omission.Some? && omission.value in kept ==> lines != [] && omission.value == Chunk(1, 1, lines[0].text)
  {
    var lines := Filtered(raw, f);
    var p := ParseOf(lines);
    SomeLineIsFiltered(raw, f);
    hide Filtered, ParseOf, Exact, Faithful;
    if p.omission.Some? && p.omission.value in kept && p.omission.value != Chunk(1, 1, lines[0].text) {
      OmissionIsSilent(summary, raw, f, kept);
    } else {
      KeptAreFaithful(lines, kept);
      DeliveredMarkersAreExact(summary, raw, f, kept);
    }
  }

  lemma SomeLineIsFiltered(raw: seq<string>, f: Folding)
    requires raw != []
    ensures Filtered(raw, f) != [] && Orderly(Filtered(raw, f))
  {
    hide Filtered, Orderly;
    FilteringLosesNoLine(raw, f);
  }

  lemma KeptAreFaithful(lines: seq<Traced>, kept: seq<Chunk>)
    requires lines != [] && forall i :: 0 <= i < |kept| ==> kept[i] in Chunks(ParseOf(lines))
    requires ParseOf(lines).omission.Some? && ParseOf(lines).omission.value in kept ==>
      ParseOf(lines).omission.value == Chunk(1, 1, lines[0].text)
    ensures forall i :: 0 <= i < |kept| ==> Faithful(kept[i], lines)
  {
    ParsedChunks(lines);
    hide ParseOf;
    assert Faithful(Chunk(1, 1, lines[0].text), lines) by {
      assert lines[0..1] == [lines[0]];
    }
    hide JoinLines, Faithful;
    forall i | 0 <= i < |kept| ensures Faithful(kept[i], lines) {
      assert kept[i] in Chunks(ParseOf(lines));
    }
  }

  // The last raw line of what is left out is in the range of the omission chunk, and nothing shows it.
  lemma EndIsSilent(summary: string, raw: seq<string>, f: Folding, kept: seq<Chunk>, z: nat)
    requires raw != []
    requires forall i :: 0 <= i < |kept| ==> kept[i] in Chunks(ParseOf(Filtered(raw, f)))
    requires ParseOf(Filtered(raw, f)).omission.Some? && z < |Filtered(raw, f)|
    requires EndsOmitted(Filtered(raw, f), ParseOf(Filtered(raw, f)), z)
    requires var omission := ParseOf(Filtered(raw, f)).omission.value;
      omission in kept && omission != Chunk(1, 1, Filtered(raw, f)[0].text)
    ensures var line := Filtered(raw, f)[z].span.last;
      && 1 <= line <= |raw|
      && !MarkedIn(summary, raw, f, kept, line) && !Shown(kept, Filtered(raw, f), line)
  {
    hide *;
    var lines := Filtered(raw, f);
    SomeLineIsFiltered(raw, f);
    LastIsARawLine(raw, f, z);
    ParsedChunks(lines);
    KeptAreInText(lines, kept);
    EndIsInKeptRange(lines, ParseOf(lines), kept, z);
    EndIsNotShown(lines, ParseOf(lines), kept, z);
    MarkedIffOutOfRange(summary, raw, f, kept, lines[z].span.last);
  }

  lemma LastIsARawLine(raw: seq<string>, f: Folding, z: nat)
    requires raw != [] && z < |Filtered(raw, f)|
    ensures 1 <= Filtered(raw, f)[z].span.last <= |raw|
  {
    FilteringLosesNoLine(raw, f);
    var lines := Filtered(raw, f);
    hide Filtered, Follows;
    SpansGrow(lines, 0, z);
    SpansGrow(lines, z, |lines| - 1);
  }

  lemma KeptAreInText(lines: seq<Traced>, kept: seq<Chunk>)
    requires forall i :: 0 <= i < |kept| ==> kept[i] in Chunks(ParseOf(lines))
    ensures forall i :: 0 <= i < |kept| ==> InText(kept[i], lines)
  {
    ParsedChunks(lines);
    hide ParseOf, JoinLines;
    forall i | 0 <= i < |kept| ensures InText(kept[i], lines) {
      assert kept[i] in Chunks(ParseOf(lines));
    }
  }

  lemma EndIsInKeptRange(lines: seq<Traced>, p: Parse, kept: seq<Chunk>, z: nat)
    requires Orderly(lines) && p.omission.Some? && EndsOmitted(lines, p, z) && p.omission.value in kept
    ensures InKeptRange(kept, lines, lines[z].span.last)
  {
    hide Follows, IsMarker;
    var i :| 0 <= i < |kept| && kept[i] == p.omission.value;
    assert StandsFor(lines[z], lines[z].span.last);
    assert InRangeOf(kept[i], lines, lines[z].span.last);
  }

  lemma EndIsNotShown(lines: seq<Traced>, p: Parse, kept: seq<Chunk>, z: nat)
    requires Orderly(lines) && p.omission.Some? && EndsOmitted(lines, p, z) && '\n' !in p.omission.value.text
    requires z < |lines| && p.omission.value != Chunk(1, 1, lines[0].text)
    requires forall i :: 0 <= i < |kept| ==> kept[i] in Chunks(p)
    ensures !Shown(kept, lines, lines[z].span.last)
  {
    hide ShownBy, Orderly, EndsOmitted;
    forall i | 0 <= i < |kept| ensures !ShownBy(kept[i], lines, lines[z].span.last) {
      assert kept[i] in Chunks(p);
      EndIsNotShownBy(lines, p, kept[i], z);
    }
  }

  lemma EndIsALine(lines: seq<Traced>, p: Parse, z: nat)
    requires p.omission.Some? && EndsOmitted(lines, p, z)
    ensures z < |lines|
  {
  }

  lemma OmissionIsSilent(summary: string, raw: seq<string>, f: Folding, kept: seq<Chunk>)
    requires raw != []
    requires forall i :: 0 <= i < |kept| ==> kept[i] in Chunks(ParseOf(Filtered(raw, f)))
    requires ParseOf(Filtered(raw, f)).omission.Some? && Filtered(raw, f) != []
    requires var omission := ParseOf(Filtered(raw, f)).omission.value;
      omission in kept && omission != Chunk(1, 1, Filtered(raw, f)[0].text)
    ensures !Exact(summary, raw, f, kept)
  {
    hide Filtered, ParseOf, Shown, MarkedIn, EndsOmitted;
    var z := SomeLineEndsOmitted(Filtered(raw, f));
    EndIsALine(Filtered(raw, f), ParseOf(Filtered(raw, f)), z);
    EndIsSilent(summary, raw, f, kept, z);
  }

  // ---------- Which lines are silent ----------

  // A raw line that no kept text shows and no marker names.
  ghost predicate Silent(summary: string, raw: seq<string>, f: Folding, kept: seq<Chunk>, line: int) {
    !MarkedIn(summary, raw, f, kept, line) && !Shown(kept, Filtered(raw, f), line)
  }

  // The recorded text happens to be the text of the line it begins at.
  predicate RepeatsFirstLine(omission: Chunk, lines: seq<Traced>) {
    omission.startLine == 1 && lines != [] && omission.text == lines[0].text
  }

  lemma OmissionShows(lines: seq<Traced>, line: int)
    requires ParseOf(lines).omission.Some?
    ensures var omission := ParseOf(lines).omission.value;
      ShownBy(omission, lines, line) <==>
        RepeatsFirstLine(omission, lines) && StandsFor(lines[0], line)
  {
    hide *;
    ParsedChunks(lines);
    OmissionBeginsAtABlock(lines);
    OneLineShows(ParseOf(lines).omission.value, lines, line);
  }

  lemma OneLineShows(c: Chunk, lines: seq<Traced>, line: int)
    requires InText(c, lines) && '\n' !in c.text && (c.startLine == 1 || c.text != lines[c.startLine - 1].text)
    ensures ShownBy(c, lines, line) <==> RepeatsFirstLine(c, lines) && StandsFor(lines[0], line)
  {
    hide JoinLines, StandsFor;
    if k :| Holds(c, lines, k) && 0 <= k < |lines| && StandsFor(lines[k], line) {
      OneLineHolds(c, lines, k);
    }
    if RepeatsFirstLine(c, lines) && StandsFor(lines[0], line) {
      assert lines[0..1] == [lines[0]];
      JoinUnfolds([lines[0]]);
      assert Holds(c, lines, 0);
    }
  }

  // It begins with the output or at a test block, whose first line it cannot repeat.
  lemma OmissionBeginsAtABlock(lines: seq<Traced>)
    requires ParseOf(lines).omission.Some?
    ensures var omission := ParseOf(lines).omission.value;
      omission.startLine == 1 || (1 <= omission.startLine <= |lines| && omission.text != lines[omission.startLine - 1].text)
  {
    hide IsRun, JoinLines, IsMarker, OmissionText, IsFailing, Starts, Passing, FailingChunks;
    StartsAreTheRuns(lines, |lines|);
    var starts, passing := Starts(lines, |lines|), OmittedBlocks(lines);
    OmissionTextIsOneLine(|passing|, Preamble(lines, starts));
    if passing != [] {
      BlockFacts(lines, starts, passing[0]);
    }
  }

  /** Once the omission chunk is kept, the silent lines are those of its range that no kept test block covers: every
      passing block, and a failing one between them that the budget leaves out. The one exception is an output that
      begins with the very text of the record. */
  lemma SilentIff(summary: string, raw: seq<string>, f: Folding, kept: seq<Chunk>, line: int)
    requires 1 <= line <= |raw|
    requires forall i :: 0 <= i < |kept| ==> kept[i] in Chunks(ParseOf(Filtered(raw, f)))
    requires ParseOf(Filtered(raw, f)).omission.Some? && ParseOf(Filtered(raw, f)).omission.value in kept
    ensures var lines := Filtered(raw, f);
      var omission := ParseOf(lines).omission.value;
      Silent(summary, raw, f, kept, line) <==>
        && InRangeOf(omission, lines, line)
        && (forall i :: 0 <= i < |kept| && kept[i] != omission ==> !InRangeOf(kept[i], lines, line))
        && !(RepeatsFirstLine(omission, lines) && StandsFor(lines[0], line))
  {
    var lines := Filtered(raw, f);
    var p := ParseOf(lines);
    ParsedChunks(lines);
    OmissionShows(lines, line);
    hide Filtered, ParseOf, MarkedIn, InRangeOf, ShownBy, RepeatsFirstLine, Faithful;
    KeptAreInText(lines, kept);
    MarkedIffOutOfRange(summary, raw, f, kept, line);
    forall i | 0 <= i < |kept| && kept[i] != p.omission.value
      ensures ShownBy(kept[i], lines, line) <==> InRangeOf(kept[i], lines, line)
    {
      FaithfulShowsIff(kept[i], lines, line);
    }
    hide InText, StandsFor, Chunks;
  }

  lemma FaithfulShowsIff(c: Chunk, lines: seq<Traced>, line: int)
    requires Faithful(c, lines)
    ensures ShownBy(c, lines, line) <==> InRangeOf(c, lines, line)
  {
    FaithfulShows(c, lines, line);
    if k :| Holds(c, lines, k) && 0 <= k < |lines| && StandsFor(lines[k], line) {
    }
  }

  // ---------- A failing test between two passing ones ----------

  const LOG := ["=== RUN A", "ok", "=== RUN B", "--- FAIL: B", "=== RUN C", "ok"]
  const AS_IS := Folding((text: string) => text, (text: string) => false)

  lemma {:induction false} NothingRepeats(lines: seq<Traced>, i: nat)
    requires i <= |lines| && forall k :: 0 < k < |lines| ==> lines[k].text != lines[k - 1].text
    ensures Repeats(lines, i) == lines[i..]
    decreases |lines| - i
  {
    if i < |lines| {
      assert EqualRun(lines, lines[i].text, i + 1) == 0;
      NothingRepeats(lines, i + 1);
    }
  }

  lemma {:induction false} NothingIsSimilar(lines: seq<Traced>, i: nat)
    requires i <= |lines|
    ensures Similars(lines, AS_IS, i) == lines[i..]
    decreases |lines| - i
  {
    if i < |lines| {
      NothingIsSimilar(lines, i + 1);
    }
  }

  lemma LogIsKept()
    ensures Filtered(LOG, AS_IS) == Identity(LOG)
  {
    var lines := Identity(LOG);
    NothingRepeats(lines, 0);
    NothingIsSimilar(lines, 0);
  }

  // A block without a dash or a p cannot fail.
  lemma PlainBlockPasses(text: string)
    requires '-' !in text && 'p' !in text
    ensures !IsFailing(text)
  {
    forall at: nat, indent: nat | at + indent <= |text| && indent <= 64
      ensures !BeginsAt(text, at, indent, "--- FAIL:") && !BeginsAt(text, at, indent, "panic:")
    {
      FirstIsIn(text, at + indent, "--- FAIL:");
      FirstIsIn(text, at + indent, "panic:");
    }
  }

  lemma FirstIsIn(text: string, at: nat, words: string)
    requires at <= |text| && words != [] && words[0] !in text
    ensures !(words <= text[at..])
  {
    var rest := text[at..];
    if words <= rest {
      assert rest[0] == text[at];
    }
  }

  // Blocks of two lines each.
  lemma ThreePairs(lines: seq<Traced>)
    requires |lines| == 6 && IsRun(lines[0].text) && IsRun(lines[2].text) && IsRun(lines[4].text)
    requires !IsRun(lines[1].text) && !IsRun(lines[3].text) && !IsRun(lines[5].text)
    ensures Starts(lines, 6) == [0, 2, 4]
  {
    hide IsRun;
    assert Starts(lines, 0) == [];
    assert Starts(lines, 1) == [0] == Starts(lines, 2);
    assert Starts(lines, 3) == [0, 2] == Starts(lines, 4);
    assert Starts(lines, 5) == [0, 2, 4];
  }

  lemma PairText(lines: seq<Traced>, i: nat)
    requires i + 2 <= |lines|
    ensures JoinLines(lines[i..i + 2]) == lines[i].text + "\n" + lines[i + 1].text
  {
    assert lines[i..i + 2] == [lines[i]] + [lines[i + 1]];
    JoinSplits([lines[i]], [lines[i + 1]]);
  }

  // Of three blocks the middle one fails.
  lemma MiddleFails(lines: seq<Traced>, starts: seq<nat>)
    requires |starts| == 3 && Ascending(starts, |lines|)
    requires IsPassing(lines, starts, 0) && !IsPassing(lines, starts, 1) && IsPassing(lines, starts, 2)
    ensures Passing(lines, starts, 3) == [0, 2] && FailingChunks(lines, starts, 3) == [BlockChunk(lines, starts, 1)]
  {
    hide IsFailing, BlockText, Passing, FailingChunks, BlockChunk;
    NoBlocks(lines, starts);
    OneMoreBlock(lines, starts, 0);
    OneMoreBlock(lines, starts, 1);
    OneMoreBlock(lines, starts, 2);
  }

  lemma MiddleIsKept(lines: seq<Traced>)
    requires |lines| == 6 && Starts(lines, 6) == [0, 2, 4]
    requires !IsFailing(JoinLines(lines[0..2])) && IsFailing(JoinLines(lines[2..4])) && !IsFailing(JoinLines(lines[4..6]))
    ensures ParseOf(lines) == Parse([Chunk(3, 4, JoinLines(lines[2..4]))], Some(Chunk(1, 6, OmissionText(2, 0))), 2)
  {
    hide Starts, IsFailing, JoinLines, OmissionText, IsBlank, Passing, FailingChunks;
    MiddleFails(lines, [0, 2, 4]);
  }

  lemma LogBlocks()
    ensures var lines := Identity(LOG);
      && |lines| == 6 && lines[0].text == "=== RUN A" && lines[2].text == "=== RUN B" && lines[4].text == "=== RUN C"
      && lines[1].text == "ok" && lines[3].text == "--- FAIL: B" && lines[5].text == "ok"
  {
  }

  lemma LogFailure()
    ensures IsFailing("=== RUN B" + "\n" + "--- FAIL: B")
  {
    assert BeginsAt("=== RUN B" + "\n" + "--- FAIL: B", 10, 0, "--- FAIL:");
  }

  lemma LogStarts()
    ensures |Identity(LOG)| == 6 && Starts(Identity(LOG), 6) == [0, 2, 4]
  {
    hide Identity, Starts;
    LogBlocks();
    ThreePairs(Identity(LOG));
  }

  lemma LogOutcomes()
    ensures var lines := Identity(LOG);
      && |lines| == 6
      && !IsFailing(JoinLines(lines[0..2])) && IsFailing(JoinLines(lines[2..4])) && !IsFailing(JoinLines(lines[4..6]))
  {
    hide IsFailing, JoinLines, Identity;
    var lines := Identity(LOG);
    LogBlocks();
    PlainBlockPasses("=== RUN A" + "\n" + "ok");
    PlainBlockPasses("=== RUN C" + "\n" + "ok");
    LogFailure();
    PairText(lines, 0);
    PairText(lines, 2);
    PairText(lines, 4);
  }

  lemma LogParse()
    ensures |Identity(LOG)| == 6
    ensures ParseOf(Identity(LOG)) ==
      Parse([Chunk(3, 4, JoinLines(Identity(LOG)[2..4]))], Some(Chunk(1, 6, OmissionText(2, 0))), 2)
  {
    hide *;
    LogStarts();
    LogOutcomes();
    MiddleIsKept(Identity(LOG));
  }

  lemma LogRanges(line: int)
    requires 1 <= line <= 6
    ensures InRangeOf(Chunk(1, 6, OmissionText(2, 0)), Identity(LOG), line)
    ensures forall text :: InRangeOf(Chunk(3, 4, text), Identity(LOG), line) <==> line == 3 || line == 4
    ensures !RepeatsFirstLine(Chunk(1, 6, OmissionText(2, 0)), Identity(LOG))
  {
    var lines := Identity(LOG);
    OmissionTextIsOneLine(2, 0);
    assert IsRun(lines[0].text);
    hide OmissionText, IsRun;
    assert StandsFor(lines[line - 1], line);
  }

  /** With every chunk kept the passing lines are silent; when the budget leaves the failing block out, all are. */
  lemma LogLinesAreSilent(summary: string, line: int)
    requires 1 <= line <= |LOG|
    ensures var p := ParseOf(Filtered(LOG, AS_IS));
      && p.omission.Some?
      && (Silent(summary, LOG, AS_IS, Chunks(p), line) <==> line != 3 && line != 4)
      && Silent(summary, LOG, AS_IS, [p.omission.value], line)
  {
    hide ParseOf, Filtered, Silent, Identity, OmissionText, InRangeOf, RepeatsFirstLine, JoinLines;
    LogIsKept();
    LogParse();
    LogRanges(line);
    var p := ParseOf(Identity(LOG));
    var kept := Chunks(p);
    assert kept == [p.chunks[0], p.omission.value];
    SilentIff(summary, LOG, AS_IS, kept, line);
    SilentIff(summary, LOG, AS_IS, [p.omission.value], line);
    assert kept[0] != p.omission.value && kept[1] == p.omission.value;
  }
}
