/** Runs in different namespaces do not warm each other's cache. */
module CacheIsolation {
  import opened Prelude
  import opened CacheModel
  import opened RequestRendering
  import opened CacheNamespace

  // ---------- Occurrences of the marker prefix ----------

  predicate OccursAt(s: string, q: int) {
    0 <= q && q + |PREFIX| <= |s| && s[q..q + |PREFIX|] == PREFIX
  }

  ghost predicate Clean(s: string) {
    forall q :: !OccursAt(s, q)
  }

  // What a JSON string, object or array starts with; none of these occurs in the marker prefix.
  predicate IsJsonStart(c: char) {
    c == '"' || c == '{' || c == '['
  }

  lemma PrefixIsPlain()
    ensures NeedsNoEscape(PREFIX)
    ensures forall i :: 0 <= i < |PREFIX| ==> !IsJsonStart(PREFIX[i])
  {
  }

  lemma OccurrenceCharacters(s: string, q: int, i: int)
    requires OccursAt(s, q) && q <= i < q + |PREFIX|
    ensures !IsJsonStart(s[i])
  {
    PrefixIsPlain();
    assert s[i] == s[q..q + |PREFIX|][i - q];
  }

  // An occurrence cannot run across the start of a JSON text.
  lemma OccurrenceEndsAtJsonStart(a: string, b: string, q: int)
    requires OccursAt(a + b, q) && q < |a| && |b| > 0 && IsJsonStart(b[0])
    ensures OccursAt(a, q)
  {
    if q + |PREFIX| > |a| {
      OccurrenceCharacters(a + b, q, |a|);
      assert false;
    }
    assert (a + b)[q..q + |PREFIX|] == a[q..q + |PREFIX|];
  }

  lemma OccurrenceInSecond(a: string, b: string, q: int)
    requires OccursAt(a + b, q) && q >= |a|
    ensures OccursAt(b, q - |a|)
  {
    assert (a + b)[q..q + |PREFIX|] == b[q - |a|..q - |a| + |PREFIX|];
  }

  lemma CleanJoins(a: string, b: string)
    requires Clean(a) && Clean(b) && (b == "" || IsJsonStart(b[0]))
    ensures Clean(a + b)
  {
    if b == "" {
      assert a + b == a;
    } else {
      forall q
        ensures !OccursAt(a + b, q)
      {
        if OccursAt(a + b, q) {
          if q < |a| {
            OccurrenceEndsAtJsonStart(a, b, q);
          } else {
            OccurrenceInSecond(a, b, q);
          }
        }
      }
    }
  }

  lemma OccurrenceStart(s: string, q: int)
    requires OccursAt(s, q)
    ensures s[q] == 'b'
  {
    assert s[q] == s[q..q + |PREFIX|][0];
  }

  // The first occurrence in a text whose lead is clean is the one after the opening quote.
  lemma FirstOccurrence(lead: string, tail: string, q: int)
    requires Clean(lead)
    ensures OccursAt(lead + "\"" + PREFIX + tail, |lead| + 1)
    ensures OccursAt(lead + "\"" + PREFIX + tail, q) ==> q >= |lead| + 1
  {
    var s := lead + "\"" + PREFIX + tail;
    assert s[|lead| + 1..|lead| + 1 + |PREFIX|] == PREFIX;
    if OccursAt(s, q) && q < |lead| + 1 {
      PrefixIsPlain();
      assert s == lead + ("\"" + PREFIX + tail);
      if q < |lead| {
        OccurrenceEndsAtJsonStart(lead, "\"" + PREFIX + tail, q);
      } else {
        OccurrenceStart(s, q);
        assert false;
      }
    }
  }

  lemma SameTextSameTail(lead1: string, tail1: string, lead2: string, tail2: string)
    requires Clean(lead1) && Clean(lead2)
    requires lead1 + "\"" + PREFIX + tail1 == lead2 + "\"" + PREFIX + tail2
    ensures lead1 == lead2 && tail1 == tail2
  {
    var s := lead1 + "\"" + PREFIX + tail1;
    FirstOccurrence(lead1, tail1, |lead2| + 1);
    FirstOccurrence(lead2, tail2, |lead1| + 1);
    assert |lead1| == |lead2|;
    assert s[..|lead1|] == lead1 && s[..|lead2|] == lead2;
    assert s[|lead1| + 1 + |PREFIX|..] == tail1 && s[|lead2| + 1 + |PREFIX|..] == tail2;
  }

  // ---------- The slot can be read off the tail ----------

  // What follows the prefix in a marked text: the slot, an escaped line break, the rest.
  function Tail(slot: nat, rest: string): string {
    Decimal(slot) + "\\n" + rest
  }

  lemma FirstBackslash(digits: string, rest: string, i: nat)
    requires forall k :: 0 <= k < |digits| ==> IsDigit(digits[k])
    requires i < |digits + "\\n" + rest|
    ensures (digits + "\\n" + rest)[|digits|] == '\\'
    ensures (digits + "\\n" + rest)[i] == '\\' ==> i >= |digits|
  {
    if i < |digits| {
      assert (digits + "\\n" + rest)[i] == digits[i];
    }
  }

  lemma TailTellsSlot(s: nat, r1: string, t: nat, r2: string)
    requires Tail(s, r1) == Tail(t, r2)
    ensures s == t && r1 == r2
  {
    DecimalIsDigits(s);
    DecimalIsDigits(t);
    var x := Tail(s, r1);
    FirstBackslash(Decimal(s), r1, |Decimal(t)|);
    FirstBackslash(Decimal(t), r2, |Decimal(s)|);
    assert x[..|Decimal(s)|] == Decimal(s) && x[..|Decimal(t)|] == Decimal(t);
    DecimalIsInjective(s, t);
    assert x[|Decimal(s)| + 2..] == r1 && x[|Decimal(t)| + 2..] == r2;
  }

  // ---------- Marked requests ----------

  ghost predicate CleanStart(s: string) {
    Clean(s) && (s == "" || IsJsonStart(s[0]))
  }

  // Ahead of the marked segment: clean JSON texts that are no breakpoints.
  ghost predicate CleanLead(segments: seq<Segment>) {
    forall k :: 0 <= k < |segments| ==> CleanStart(segments[k].text) && !segments[k].breakpoint
  }

  // Segment m carries the marker of the slot, after `before`.
  ghost predicate MarkedAt(segments: seq<Segment>, slot: nat, m: nat, before: string, rest: string) {
    && m < |segments|
    && CleanLead(segments[..m]) && CleanStart(before)
    && segments[m].text == before + "\"" + PREFIX + Tail(slot, rest)
  }

  lemma {:induction false} CleanLeadCleanText(segments: seq<Segment>)
    requires CleanLead(segments)
    ensures Clean(Text(segments))
  {
    if segments != [] {
      CleanLeadCleanText(segments[..|segments| - 1]);
      CleanJoins(Text(segments[..|segments| - 1]), segments[|segments| - 1].text);
    }
  }

  // The prefixes that reach the marked segment, opened up around the marker.
  lemma MarkedPrefix(segments: seq<Segment>, slot: nat, m: nat, before: string, rest: string, k: nat)
    requires MarkedAt(segments, slot, m, before, rest) && m < k <= |segments|
    ensures var lead, more := Text(segments[..m]) + before, rest + Text(segments[m + 1..k]);
      Clean(lead) && Text(segments[..k]) == lead + "\"" + PREFIX + Tail(slot, more)
  {
    CleanLeadCleanText(segments[..m]);
    CleanJoins(Text(segments[..m]), before);
    hide CleanLead, CleanStart, Clean, Decimal;
    SplitAround(segments, m, k);
    Reassociate(Text(segments[..m]), before, PREFIX, Decimal(slot), "\\n", rest, Text(segments[m + 1..k]));
  }

  lemma SplitAround(segments: seq<Segment>, m: nat, k: nat)
    requires m < k <= |segments|
    ensures Text(segments[..k]) == Text(segments[..m]) + (segments[m].text + Text(segments[m + 1..k]))
  {
    var one := [segments[m]];
    assert segments[..k] == segments[..m] + (one + segments[m + 1..k]);
    TextSum(segments[..m], one + segments[m + 1..k]);
    TextSum(one, segments[m + 1..k]);
    assert one[..0] == [];
    assert Text(one) == segments[m].text;
  }

  lemma Reassociate(a: string, b: string, p: string, d: string, n: string, r: string, c: string)
    ensures a + ((b + "\"" + p + (d + n + r)) + c) == (a + b) + "\"" + p + (d + n + (r + c))
  {
  }

  lemma UnmarkedPrefix(segments: seq<Segment>, slot: nat, m: nat, before: string, rest: string, k: nat)
    requires MarkedAt(segments, slot, m, before, rest) && k <= m
    ensures Clean(Text(segments[..k]))
  {
    assert segments[..m][..k] == segments[..k];
    assert CleanLead(segments[..k]) by {
      assert forall j :: 0 <= j < k ==> segments[..k][j] == segments[..m][j];
    }
    CleanLeadCleanText(segments[..k]);
  }

  lemma NoBreakpointInLead(segments: seq<Segment>, slot: nat, m: nat, before: string, rest: string, k: nat)
    requires MarkedAt(segments, slot, m, before, rest) && k < |segments| && segments[k].breakpoint
    ensures k >= m
  {
    var lead := segments[..m];
    assert forall j :: 0 <= j < m ==> lead[j] == segments[j];
  }

  ghost predicate Marked(segments: seq<Segment>, slot: nat) {
    exists m: nat, before: string, rest: string :: MarkedAt(segments, slot, m, before, rest)
  }

  /** No prefix of a request is cached by a request marked for another slot. */
  lemma OtherSlotsCacheNothing(segments: seq<Segment>, s: nat, other: seq<Segment>, t: nat, k: nat)
    requires Marked(segments, s) && Marked(other, t) && s != t && k <= |segments|
    ensures !Caches(other, Text(segments[..k]))
  {
    var m: nat, before: string, rest: string :| MarkedAt(segments, s, m, before, rest);
    var m2: nat, before2: string, rest2: string :| MarkedAt(other, t, m2, before2, rest2);
    forall j
      ensures !CachesAt(other, Text(segments[..k]), j)
    {
      if CachesAt(other, Text(segments[..k]), j) {
        NoBreakpointInLead(other, t, m2, before2, rest2, j);
        MarkedPrefix(other, t, m2, before2, rest2, j + 1);
        var lead2, more2 := Text(other[..m2]) + before2, rest2 + Text(other[m2 + 1..j + 1]);
        if k <= m {
          UnmarkedPrefix(segments, s, m, before, rest, k);
          FirstOccurrence(lead2, Tail(t, more2), 0);
        } else {
          MarkedPrefix(segments, s, m, before, rest, k);
          var lead, more := Text(segments[..m]) + before, rest + Text(segments[m + 1..k]);
          SameTextSameTail(lead, Tail(s, more), lead2, Tail(t, more2));
          TailTellsSlot(s, more, t, more2);
        }
      }
    }
  }

  // ---------- Namespaced bodies are marked ----------

  // What the system prompt renders ahead of the block that will carry the marker.
  function LeadBlocks(system: System): seq<Block> {
    match system
    case Blocks(blocks) =>
      (match MarkerBlockIndex(blocks)
       case None => []
       case Some(k) =>
         MarkerBlockHasText(blocks);
         blocks[..k])
    case _ => []
  }

  // No recorded text ahead of the marker could pass for it.
  ghost predicate CleanTexts(body: Body) {
    && (forall i :: 0 <= i < |body.tools| ==> CleanStart(BlockJson(body.tools[i])))
    && var lead := LeadBlocks(body.system);
    && (forall i :: 0 <= i < |lead| && !IsBillingHeader(lead[i]) ==> CleanStart(BlockJson(lead[i])))
    && match body.system
       case Blocks(blocks) =>
         (match MarkerBlockIndex(blocks)
          case None => true
          case Some(k) => k < |blocks| && CleanStart(blocks[k].before))
       case _ => true
  }

  // No cached prefix ends ahead of the marker.
  predicate NoBreakpointAhead(body: Body) {
    && (forall i :: 0 <= i < |body.tools| ==> !body.tools[i].breakpoint)
    && var lead := LeadBlocks(body.system);
       forall i :: 0 <= i < |lead| && !IsBillingHeader(lead[i]) ==> !lead[i].breakpoint
  }

  // What is rendered ahead of the marker is clean and holds no breakpoint.
  ghost predicate WellPlaced(body: Body) {
    CleanTexts(body) && NoBreakpointAhead(body)
  }

  lemma {:induction false} CleanBlocksCleanLead(blocks: seq<Block>)
    requires forall i :: 0 <= i < |blocks| ==> CleanStart(BlockJson(blocks[i])) && !blocks[i].breakpoint
    ensures CleanLead(BlockSegments(blocks))
  {
    if blocks != [] {
      CleanBlocksCleanLead(blocks[..|blocks| - 1]);
    }
  }

  lemma {:induction false} CleanSystemLead(blocks: seq<Block>)
    requires forall i :: 0 <= i < |blocks| && !IsBillingHeader(blocks[i]) ==>
      CleanStart(BlockJson(blocks[i])) && !blocks[i].breakpoint
    ensures CleanLead(SystemBlockSegments(blocks))
  {
    if blocks != [] {
      CleanSystemLead(blocks[..|blocks| - 1]);
    }
  }

  lemma {:induction false} SystemSegmentsSum(a: seq<Block>, b: seq<Block>)
    ensures SystemBlockSegments(a + b) == SystemBlockSegments(a) + SystemBlockSegments(b)
  {
    hide BlockSegment, IsBillingHeader;
    if b == [] {
      assert a + b == a;
    } else {
      SystemSegmentsSum(a, b[..|b| - 1]);
      assert (a + b)[..|a + b| - 1] == a + b[..|b| - 1];
    }
  }

  lemma MarkedJson(slot: nat, text: string)
    ensures JsonString(Marker(slot) + text) == "\"" + PREFIX + Tail(slot, Escape(text) + "\"")
  {
    DecimalIsDigits(slot);
    PrefixIsPlain();
    var line := PREFIX + Decimal(slot);
    assert NeedsNoEscape(line) by {
      forall i | 0 <= i < |line|
        ensures line[i] as int >= 0x20 && line[i] != '"' && line[i] != '\\'
      {
        assert line[i] == if i < |PREFIX| then PREFIX[i] else Decimal(slot)[i - |PREFIX|];
      }
    }
    EscapeOfPlain(line);
    EscapeOfLine(line, text);
    assert Marker(slot) + text == line + ("\n" + text);
    hide Escape;
    Requote(PREFIX, Decimal(slot), Escape(text));
  }

  lemma EscapeOfLine(line: string, text: string)
    requires Escape(line) == line
    ensures Escape(line + ("\n" + text)) == line + ("\\n" + Escape(text))
  {
    EscapeSum(line, "\n" + text);
    EscapeSum("\n", text);
    assert Escape("\n") == "\\n";
  }

  lemma Requote(p: string, d: string, e: string)
    ensures "\"" + ((p + d) + ("\\n" + e)) + "\"" == "\"" + p + (d + "\\n" + (e + "\""))
  {
  }

  // Putting the marked segment between a clean lead and anything.
  lemma Assemble(lead: seq<Segment>, marked: Segment, after: seq<Segment>, slot: nat, before: string, rest: string)
    requires CleanLead(lead) && CleanStart(before)
    requires marked.text == before + "\"" + PREFIX + Tail(slot, rest)
    ensures Marked(lead + [marked] + after, slot)
  {
    var segments := lead + [marked] + after;
    assert segments[..|lead|] == lead;
    assert MarkedAt(segments, slot, |lead|, before, rest);
  }

  lemma NamespacedPlainIsMarked(body: Body, slot: nat, text: string)
    requires WellPlaced(body)
    ensures Marked(Segments(body.(system := Plain(Marker(slot) + text))), slot)
  {
    MarkedJson(slot, text);
    CleanBlocksCleanLead(body.tools);
    var json, rest := JsonString(Marker(slot) + text), Escape(text) + "\"";
    var tools, messages := BlockSegments(body.tools), MessagesSegments(body.messages);
    assert Segments(body.(system := Plain(Marker(slot) + text))) == tools + [Segment(json, false)] + messages;
    EmptyIsCleanStart();
    hide *;
    NothingBefore(PREFIX, Tail(slot, rest));
    Assemble(tools, Segment(json, false), messages, slot, "", rest);
  }

  lemma NothingBefore(p: string, t: string)
    ensures "" + "\"" + p + t == "\"" + p + t
  {
  }

  lemma EmptyIsCleanStart()
    ensures CleanStart("")
  {
  }

  lemma CleanLeads(a: seq<Segment>, b: seq<Segment>)
    requires CleanLead(a) && CleanLead(b)
    ensures CleanLead(a + b)
  {
  }

  lemma AfterTheTail(slot: nat, rest: string, after: string)
    ensures Tail(slot, rest + after) == Tail(slot, rest) + after
  {
    hide Decimal;
    assert Decimal(slot) + "\\n" + (rest + after) == Decimal(slot) + "\\n" + rest + after;
  }

  lemma JoinAfter(b: string, p: string, t: string, a: string)
    ensures b + ("\"" + p + t) + a == b + "\"" + p + (t + a)
  {
  }

  // A marked block is never mistaken for the billing header.
  lemma MarkedBlockIsRendered(b: Block, slot: nat, text: string)
    requires b.text == Some(Marker(slot) + text)
    ensures !IsBillingHeader(b)
    ensures BlockJson(b) == b.before + "\"" + PREFIX + Tail(slot, Escape(text) + "\"" + b.after)
  {
    assert b.text.value[0] == 'b';
    MarkedJson(slot, text);
    hide Marker, JsonString, Escape, Decimal;
    AfterTheTail(slot, Escape(text) + "\"", b.after);
    JoinAfter(b.before, PREFIX, Tail(slot, Escape(text) + "\""), b.after);
  }

  // The rendering of a system prompt whose block k carries the marker.
  lemma SplitSystem(blocks: seq<Block>, k: nat)
    requires k < |blocks| && !IsBillingHeader(blocks[k])
    ensures SystemBlockSegments(blocks)
      == SystemBlockSegments(blocks[..k]) + [BlockSegment(blocks[k])] + SystemBlockSegments(blocks[k + 1..])
  {
    hide SystemBlockSegments, IsBillingHeader, BlockSegment;
    SplitAt(blocks, k);
    AroundOneBlock(blocks[..k], blocks[k], blocks[k + 1..]);
  }

  lemma SplitAt<T>(s: seq<T>, k: nat)
    requires k < |s|
    ensures s == s[..k] + ([s[k]] + s[k + 1..])
  {
  }

  lemma AroundOneBlock(a: seq<Block>, x: Block, b: seq<Block>)
    requires !IsBillingHeader(x)
    ensures SystemBlockSegments(a + ([x] + b)) == SystemBlockSegments(a) + [BlockSegment(x)] + SystemBlockSegments(b)
  {
    OneSystemSegment(x);
    hide *;
    SystemSegmentsSum(a, [x] + b);
    SystemSegmentsSum([x], b);
  }

  lemma OneSystemSegment(b: Block)
    requires !IsBillingHeader(b)
    ensures SystemBlockSegments([b]) == [BlockSegment(b)]
  {
    assert [b][..0] == [];
  }

  // Where the marker goes, and that what is ahead of it is clean.
  lemma MarkedBlock(body: Body, slot: nat) returns (k: nat, text: string)
    requires WellPlaced(body) && body.system.Blocks?
    ensures var marked := NamespaceBlocks(body.system.blocks, Marker(slot));
      && k < |marked| && marked[k].text == Some(Marker(slot) + text) && CleanStart(marked[k].before)
      && CleanLead(SystemBlockSegments(marked[..k]))
  {
    var blocks := body.system.blocks;
    hide Marker, BlockJson, CleanStart, IsBillingHeader;
    MarkerBlockHasText(blocks);
    match MarkerBlockIndex(blocks)
    case None =>
      k, text := 0, "";
      assert Marker(slot) == Marker(slot) + "";
      FreshBlockIsClean();
      CleanSystemLead([]);
      assert NamespaceBlocks(blocks, Marker(slot))[..0] == [];
    case Some(i) =>
      k, text := i, blocks[i].text.value;
      assert LeadBlocks(body.system) == blocks[..k];
      CleanSystemLead(LeadBlocks(body.system));
      assert NamespaceBlocks(blocks, Marker(slot))[..k] == blocks[..k];
  }

  lemma NamespacedBlocksAreMarked(body: Body, slot: nat)
    requires WellPlaced(body) && body.system.Blocks?
    ensures Marked(Segments(NamespaceCacheRun(body, slot)), slot)
  {
    var marked := NamespaceBlocks(body.system.blocks, Marker(slot));
    CleanBlocksCleanLead(body.tools);
    var k, text := MarkedBlock(body, slot);
    MarkedBlockIsRendered(marked[k], slot, text);
    SplitSystem(marked, k);
    var tools, messages := BlockSegments(body.tools), MessagesSegments(body.messages);
    var lead, after := SystemBlockSegments(marked[..k]), SystemBlockSegments(marked[k + 1..]);
    var rest := Escape(text) + "\"" + marked[k].after;
    var segment, before := BlockSegment(marked[k]), marked[k].before;
    assert Segments(NamespaceCacheRun(body, slot)) == tools + (lead + [segment] + after) + messages;
    hide *;
    CleanLeads(tools, lead);
    Assemble(tools + lead, segment, after + messages, slot, before, rest);
    RegroupSegments(tools, lead, segment, after, messages);
  }

  lemma RegroupSegments(t: seq<Segment>, l: seq<Segment>, x: Segment, a: seq<Segment>, m: seq<Segment>)
    ensures t + (l + [x] + a) + m == (t + l) + [x] + (a + m)
  {
  }

  lemma FreshBlockIsClean()
    ensures CleanStart(FRESH_BEFORE)
  {
    assert |FRESH_BEFORE| == 22 && |PREFIX| == 29;
  }

  lemma NamespacedIsMarked(body: Body, slot: nat)
    requires WellPlaced(body)
    ensures Marked(Segments(NamespaceCacheRun(body, slot)), slot)
  {
    match body.system
    case Plain(text) => NamespacedPlainIsMarked(body, slot, text);
    case Blocks(_) => NamespacedBlocksAreMarked(body, slot);
    case NoSystem =>
      assert Marker(slot) + "" == Marker(slot);
      NamespacedPlainIsMarked(body, slot, "");
    case OtherSystem(_) =>
      assert Marker(slot) + "" == Marker(slot);
      NamespacedPlainIsMarked(body, slot, "");
  }

  // ---------- Runs ----------

  // One request sent in the namespace of a slot.
  datatype Sent = Sent(slot: nat, body: Body)

  function Rendered(t: Sent): seq<Segment> {
    Segments(NamespaceCacheRun(t.body, t.slot))
  }

  function RenderAll(ts: seq<Sent>): seq<seq<Segment>> {
    seq(|ts|, i requires 0 <= i < |ts| => Rendered(ts[i]))
  }

  // The requests of one slot, in order.
  function OfSlot(ts: seq<Sent>, slot: nat): seq<Sent> {
    if ts == [] then []
    else
      OfSlot(ts[..|ts| - 1], slot) + if ts[|ts| - 1].slot == slot then [ts[|ts| - 1]] else []
  }

  ghost predicate AllWellPlaced(ts: seq<Sent>) {
    forall i :: 0 <= i < |ts| ==> WellPlaced(ts[i].body)
  }

  lemma RenderAllSnoc(ts: seq<Sent>, t: Sent)
    ensures RenderAll(ts + [t]) == RenderAll(ts) + [Rendered(t)]
  {
  }

  // For a request of a slot, what all runs have cached is what its own slot has cached.
  lemma {:induction false} OnlyOwnSlotIsCached(ts: seq<Sent>, slot: nat, prefix: string)
    requires forall i :: 0 <= i < |ts| && ts[i].slot != slot ==> !Caches(Rendered(ts[i]), prefix)
    ensures CachedBy(RenderAll(ts), prefix) <==> CachedBy(RenderAll(OfSlot(ts, slot)), prefix)
  {
    hide CachedBy, Caches, Rendered;
    if ts != [] {
      var earlier, last := ts[..|ts| - 1], ts[|ts| - 1];
      OnlyOwnSlotIsCached(earlier, slot, prefix);
      assert ts == earlier + [last];
      RenderAllSnoc(earlier, last);
      CachedBySnoc(RenderAll(earlier), Rendered(last), prefix);
      RenderAllSnoc(OfSlot(earlier, slot), last);
      CachedBySnoc(RenderAll(OfSlot(earlier, slot)), Rendered(last), prefix);
      assert OfSlot(ts, slot) == if last.slot == slot then OfSlot(earlier, slot) + [last] else OfSlot(earlier, slot);
    } else {
      assert RenderAll(ts) == [] == RenderAll(OfSlot(ts, slot));
    }
  }

  lemma NoOtherSlotCaches(ts: seq<Sent>, t: Sent, k: nat)
    requires AllWellPlaced(ts) && WellPlaced(t.body) && k <= |Rendered(t)|
    ensures forall i :: 0 <= i < |ts| && ts[i].slot != t.slot ==> !Caches(Rendered(ts[i]), Text(Rendered(t)[..k]))
  {
    RenderedIsMarked(t);
    forall i | 0 <= i < |ts| && ts[i].slot != t.slot
      ensures !Caches(Rendered(ts[i]), Text(Rendered(t)[..k]))
    {
      RenderedIsMarked(ts[i]);
      OtherSlotsCacheNothing(Rendered(t), t.slot, Rendered(ts[i]), ts[i].slot, k);
    }
  }

  lemma RenderedIsMarked(t: Sent)
    requires WellPlaced(t.body)
    ensures Marked(Rendered(t), t.slot)
  {
    NamespacedIsMarked(t.body, t.slot);
  }

  // The read depends on the earlier requests only through what they cached of this request's prefixes.
  lemma ReadEndDependsOnCached(segments: seq<Segment>, e1: seq<seq<Segment>>, e2: seq<seq<Segment>>)
    requires forall k :: 0 <= k <= |segments| ==> (CachedBy(e1, Text(segments[..k])) <==> CachedBy(e2, Text(segments[..k])))
    ensures ReadEnd(segments, e1) == ReadEnd(segments, e2)
  {
    ReadEndIsTheRead(segments, e1, ReadEnd(segments, e1));
    ReadEndIsTheRead(segments, e2, ReadEnd(segments, e1));
  }

  /** A request costs what it would cost if only its own run had been sent before it. */
  lemma OwnRunSetsThePrice(ts: seq<Sent>, t: Sent, bytesPerToken: real)
    requires AllWellPlaced(ts) && WellPlaced(t.body) && bytesPerToken > 0.0
    ensures RequestCost(Rendered(t), RenderAll(ts), bytesPerToken)
      == RequestCost(Rendered(t), RenderAll(OfSlot(ts, t.slot)), bytesPerToken)
  {
    hide CachedBy, Caches, Rendered, WellPlaced, Text, Tokens, ReadEnd, OfSlot, RenderAll;
    forall k | 0 <= k <= |Rendered(t)|
      ensures CachedBy(RenderAll(ts), Text(Rendered(t)[..k]))
        <==> CachedBy(RenderAll(OfSlot(ts, t.slot)), Text(Rendered(t)[..k]))
    {
      NoOtherSlotCaches(ts, t, k);
      OnlyOwnSlotIsCached(ts, t.slot, Text(Rendered(t)[..k]));
    }
    ReadEndDependsOnCached(Rendered(t), RenderAll(ts), RenderAll(OfSlot(ts, t.slot)));
  }

  // What the runs of the slots cost when each is sent to a cold cache.
  ghost function ColdCosts(ts: seq<Sent>, slots: seq<nat>, bytesPerToken: real): Cost
    requires bytesPerToken > 0.0
  {
    if slots == [] then FREE
    else
      Plus(ColdCosts(ts, slots[..|slots| - 1], bytesPerToken),
           TotalCost(RenderAll(OfSlot(ts, slots[|slots| - 1])), bytesPerToken))
  }

  ghost predicate Distinct(slots: seq<nat>) {
    forall i, j :: 0 <= i < j < |slots| ==> slots[i] != slots[j]
  }

  // One more request raises the cold cost of its own slot and of no other.
  lemma {:induction false} OneMoreRequest(ts: seq<Sent>, t: Sent, slots: seq<nat>, bytesPerToken: real)
    requires bytesPerToken > 0.0 && Distinct(slots)
    ensures var cost := RequestCost(Rendered(t), RenderAll(OfSlot(ts, t.slot)), bytesPerToken);
      ColdCosts(ts + [t], slots, bytesPerToken)
      == if t.slot in slots then Plus(ColdCosts(ts, slots, bytesPerToken), cost) else ColdCosts(ts, slots, bytesPerToken)
  {
    hide RequestCost, Rendered;
    if slots != [] {
      var front, last := slots[..|slots| - 1], slots[|slots| - 1];
      assert slots == front + [last];
      OneMoreRequest(ts, t, front, bytesPerToken);
      assert (ts + [t])[..|ts|] == ts;
      if last == t.slot {
        assert t.slot !in front;
        var own := OfSlot(ts, last);
        assert OfSlot(ts + [t], last) == own + [t];
        RenderAllSnoc(own, t);
        assert (RenderAll(own) + [Rendered(t)])[..|own|] == RenderAll(own);
      } else {
        assert OfSlot(ts + [t], last) == OfSlot(ts, last);
      }
    }
  }

  /** Namespaced runs do not interact, however their requests are interleaved: the whole costs the sum
      of what each run costs from a cold cache. */
  lemma {:induction false} RunsDoNotInteract(ts: seq<Sent>, slots: seq<nat>, bytesPerToken: real)
    requires bytesPerToken > 0.0 && AllWellPlaced(ts) && Distinct(slots)
    requires forall i :: 0 <= i < |ts| ==> ts[i].slot in slots
    ensures TotalCost(RenderAll(ts), bytesPerToken) == ColdCosts(ts, slots, bytesPerToken)
  {
    hide RequestCost, Rendered, WellPlaced;
    if ts == [] {
      NothingCostsNothing(slots, bytesPerToken);
    } else {
      var earlier, last := ts[..|ts| - 1], ts[|ts| - 1];
      assert ts == earlier + [last];
      RunsDoNotInteract(earlier, slots, bytesPerToken);
      RenderAllSnoc(earlier, last);
      assert RenderAll(ts)[..|earlier|] == RenderAll(earlier);
      OwnRunSetsThePrice(earlier, last, bytesPerToken);
      OneMoreRequest(earlier, last, slots, bytesPerToken);
    }
  }

  lemma {:induction false} NothingCostsNothing(slots: seq<nat>, bytesPerToken: real)
    requires bytesPerToken > 0.0
    ensures ColdCosts([], slots, bytesPerToken) == FREE
  {
    if slots != [] {
      NothingCostsNothing(slots[..|slots| - 1], bytesPerToken);
      NothingRendersToNothing(slots[|slots| - 1], bytesPerToken);
      hide RenderAll, OfSlot, TotalCost, Rendered;
    }
  }

  lemma NothingRendersToNothing(slot: nat, bytesPerToken: real)
    requires bytesPerToken > 0.0
    ensures TotalCost(RenderAll(OfSlot([], slot)), bytesPerToken) == FREE
  {
    assert OfSlot([], slot) == [];
    hide OfSlot, Rendered, RequestCost;
    assert RenderAll([]) == [];
  }

  // ---------- Runs one after the other ----------

  function SendRun(bodies: seq<Body>, slot: nat): seq<Sent> {
    seq(|bodies|, i requires 0 <= i < |bodies| => Sent(slot, bodies[i]))
  }

  lemma {:induction false} OfSlotOfRun(ts: seq<Sent>, bodies: seq<Body>, slot: nat, wanted: nat)
    ensures OfSlot(ts + SendRun(bodies, slot), wanted)
      == OfSlot(ts, wanted) + if slot == wanted then SendRun(bodies, slot) else []
  {
    if bodies == [] {
      assert ts + SendRun(bodies, slot) == ts;
    } else {
      var n := |bodies| - 1;
      OfSlotOfRun(ts, bodies[..n], slot, wanted);
      var all := ts + SendRun(bodies, slot);
      assert all[..|all| - 1] == ts + SendRun(bodies[..n], slot);
      assert SendRun(bodies, slot) == SendRun(bodies[..n], slot) + [Sent(slot, bodies[n])];
    }
  }

  /** The two-run case as the replay uses it: a second run sent after a first one costs what it costs alone. */
  lemma SecondRunStartsCold(first: seq<Body>, s: nat, second: seq<Body>, t: nat, bytesPerToken: real)
    requires bytesPerToken > 0.0 && s != t
    requires AllWellPlaced(SendRun(first, s)) && AllWellPlaced(SendRun(second, t))
    ensures TotalCost(RenderAll(SendRun(first, s) + SendRun(second, t)), bytesPerToken)
      == Plus(TotalCost(RenderAll(SendRun(first, s)), bytesPerToken), TotalCost(RenderAll(SendRun(second, t)), bytesPerToken))
  {
    hide WellPlaced, TotalCost, Rendered, OfSlot, RenderAll;
    var all := SendRun(first, s) + SendRun(second, t);
    RunsDoNotInteract(all, [s, t], bytesPerToken);
    OfSlotOfRuns(first, s, second, t);
    TwoColdCosts(all, s, t, bytesPerToken);
  }

  lemma OfSlotOfRuns(first: seq<Body>, s: nat, second: seq<Body>, t: nat)
    requires s != t
    ensures var all := SendRun(first, s) + SendRun(second, t);
      OfSlot(all, s) == SendRun(first, s) && OfSlot(all, t) == SendRun(second, t)
  {
    assert [] + SendRun(first, s) == SendRun(first, s);
    OfSlotOfRun([], first, s, s);
    OfSlotOfRun([], first, s, t);
    hide SendRun;
    OfSlotOfRun(SendRun(first, s), second, t, s);
    OfSlotOfRun(SendRun(first, s), second, t, t);
  }

  lemma TwoColdCosts(ts: seq<Sent>, s: nat, t: nat, bytesPerToken: real)
    requires bytesPerToken > 0.0
    ensures ColdCosts(ts, [s, t], bytesPerToken)
      == Plus(TotalCost(RenderAll(OfSlot(ts, s)), bytesPerToken), TotalCost(RenderAll(OfSlot(ts, t)), bytesPerToken))
  {
    hide TotalCost, RenderAll, OfSlot;
    assert [s, t][..1] == [s] && [s][..0] == [];
    assert ColdCosts(ts, [s], bytesPerToken) == Plus(FREE, TotalCost(RenderAll(OfSlot(ts, s)), bytesPerToken));
  }

  // ---------- When isolation holds ----------

  // A prefix cached by one request and shared by the other is read.
  lemma SharedBreakpointLeaks(one: seq<Segment>, other: seq<Segment>, n: nat)
    requires n < |one| && n < |other| && one[..n + 1] == other[..n + 1] && one[n].breakpoint
    ensures ReadEnd(other, [one]) > n
  {
    assert CachesAt(one, Text(other[..n + 1]), n);
    assert Caches([one][0], Text(other[..n + 1]));
    assert CachedBy([one], Text(other[..n + 1]));
    ReadEndIsTheRead(other, [one], ReadEnd(other, [one]));
  }

  lemma ToolBreakpointLeaks(body: Body, s: nat, t: nat, n: nat)
    requires n < |body.tools| && body.tools[n].breakpoint
    ensures ReadEnd(Rendered(Sent(t, body)), [Rendered(Sent(s, body))]) > n
  {
    var one, other := Rendered(Sent(s, body)), Rendered(Sent(t, body));
    ToolSegment(body.tools, n);
    var tools := BlockSegments(body.tools);
    assert one[..n + 1] == tools[..n + 1] == other[..n + 1];
    assert one[n] == tools[n];
    SharedBreakpointLeaks(one, other, n);
  }

  lemma SameLead(tools: seq<Segment>, lead: seq<Segment>, x: Segment, a: seq<Segment>, m: seq<Segment>)
    ensures var all := tools + (lead + [x] + a) + m;
      && |tools + lead| < |all| && all[..|tools + lead| + 1] == tools + lead + [x] && all[|tools + lead|] == x
  {
  }

  lemma MarkingKeepsLead(blocks: seq<Block>, marker: string)
    requires LeadBlocks(Blocks(blocks)) != []
    ensures var k, marked := |LeadBlocks(Blocks(blocks))|, NamespaceBlocks(blocks, marker);
      k < |marked| && marked[..k] == LeadBlocks(Blocks(blocks))
  {
    MarkerBlockHasText(blocks);
  }

  // A block without text may stand ahead of the marked one and carry a breakpoint all the same.
  lemma SystemBreakpointLeaks(body: Body, s: nat, t: nat, i: nat)
    requires i < |LeadBlocks(body.system)|
    requires LeadBlocks(body.system)[i].breakpoint && !IsBillingHeader(LeadBlocks(body.system)[i])
    ensures ReadEnd(Rendered(Sent(t, body)), [Rendered(Sent(s, body))]) > 0
  {
    var blocks, ahead := body.system.blocks, LeadBlocks(body.system);
    var m1, m2 := NamespaceBlocks(blocks, Marker(s)), NamespaceBlocks(blocks, Marker(t));
    MarkingKeepsLead(blocks, Marker(s));
    MarkingKeepsLead(blocks, Marker(t));
    hide NamespaceBlocks, LeadBlocks, IsBillingHeader, Marker, BlockJson, ReadEnd;
    assert m1[i] == m1[..|ahead|][i] && m2[i] == m2[..|ahead|][i];
    assert m1[..i] == m1[..|ahead|][..i] && m2[..i] == m2[..|ahead|][..i];
    SplitSystem(m1, i);
    SplitSystem(m2, i);
    var tools, messages := BlockSegments(body.tools), MessagesSegments(body.messages);
    var lead, x := SystemBlockSegments(ahead[..i]), BlockSegment(ahead[i]);
    SameLead(tools, lead, x, SystemBlockSegments(m1[i + 1..]), messages);
    SameLead(tools, lead, x, SystemBlockSegments(m2[i + 1..]), messages);
    SharedBreakpointLeaks(Rendered(Sent(s, body)), Rendered(Sent(t, body)), |tools + lead|);
  }

  // A breakpoint ahead of the marker caches an unmarked prefix, which every other run reads.
  lemma BreakpointAheadLeaks(body: Body, s: nat, t: nat)
    requires !NoBreakpointAhead(body)
    ensures ReadEnd(Rendered(Sent(t, body)), [Rendered(Sent(s, body))]) > 0
  {
    hide Rendered, ReadEnd;
    if n :| 0 <= n < |body.tools| && body.tools[n].breakpoint {
      ToolBreakpointLeaks(body, s, t, n);
    } else {
      var lead := LeadBlocks(body.system);
      var i :| 0 <= i < |lead| && !IsBillingHeader(lead[i]) && lead[i].breakpoint;
      SystemBreakpointLeaks(body, s, t, i);
    }
  }

  // Sent once under one slot, the body gives a request of another slot nothing to read.
  ghost predicate Isolated(body: Body, s: nat, t: nat) {
    ReadEnd(Rendered(Sent(t, body)), [Rendered(Sent(s, body))]) == 0
  }

  lemma ReadIsCached(segments: seq<Segment>, one: seq<Segment>)
    ensures var k := ReadEnd(segments, [one]);
      k <= |segments| && (k > 0 ==> Caches(one, Text(segments[..k])))
  {
    hide Caches, ReadEnd, Text;
    ReadEndIsTheRead(segments, [one], ReadEnd(segments, [one]));
  }

  lemma WellPlacedIsIsolated(body: Body, s: nat, t: nat)
    requires WellPlaced(body) && s != t
    ensures Isolated(body, s, t)
  {
    var one, other := Rendered(Sent(s, body)), Rendered(Sent(t, body));
    RenderedIsMarked(Sent(s, body));
    RenderedIsMarked(Sent(t, body));
    hide *;
    ReadIsCached(other, one);
    var k := ReadEnd(other, [one]);
    if k > 0 {
      OtherSlotsCacheNothing(other, t, one, s, k);
      assert false;
    }
    NothingReadIsIsolated(body, s, t);
  }

  lemma NothingReadIsIsolated(body: Body, s: nat, t: nat)
    requires ReadEnd(Rendered(Sent(t, body)), [Rendered(Sent(s, body))]) <= 0
    ensures Isolated(body, s, t)
  {
    hide ReadEnd, Rendered;
  }

  /** For recordings whose texts ahead of the marker are clean, namespacing isolates two slots exactly when
      no breakpoint lies ahead of the block that carries the marker. */
  lemma IsolatedIffNoBreakpointAhead(body: Body)
    requires CleanTexts(body)
    ensures (forall s: nat, t: nat :: s != t ==> Isolated(body, s, t)) <==> NoBreakpointAhead(body)
  {
    hide CleanTexts, NoBreakpointAhead;
    if NoBreakpointAhead(body) {
      forall s: nat, t: nat | s != t
        ensures Isolated(body, s, t)
      {
        WellPlacedIsIsolated(body, s, t);
      }
    } else {
      BreakpointAheadLeaks(body, 0, 1);
      assert !Isolated(body, 0, 1);
    }
  }

  lemma {:induction false} ToolSegment(blocks: seq<Block>, n: nat)
    requires n < |blocks|
    ensures |BlockSegments(blocks)| == |blocks| && BlockSegments(blocks)[n] == BlockSegment(blocks[n])
  {
    if n < |blocks| - 1 {
      ToolSegment(blocks[..|blocks| - 1], n);
    } else if n > 0 {
      ToolSegment(blocks[..|blocks| - 1], 0);
    }
  }
}
