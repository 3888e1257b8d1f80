/** Giving each replay run its own cache namespace, and taking it away again
 *  (namespaceCacheRun and stripCacheNamespace in bench-replay/src/transform.ts).
 */
module CacheNamespace {
  import opened Prelude
  import opened CacheModel
  import opened RequestRendering

  const PREFIX := "bench-replay cache namespace "

  // ---------- The marker ----------

  function DigitChar(d: nat): char
    requires d < 10
  {
    "0123456789"[d]
  }

  function Decimal(n: nat): string {
    if n < 10 then [DigitChar(n)] else Decimal(n / 10) + [DigitChar(n % 10)]
  }

  function Marker(slot: nat): string {
    PREFIX + Decimal(slot) + "\n"
  }

  predicate IsDigit(c: char) {
    '0' <= c <= '9'
  }

  lemma {:induction false} DecimalIsDigits(n: nat)
    ensures |Decimal(n)| > 0 && forall i :: 0 <= i < |Decimal(n)| ==> IsDigit(Decimal(n)[i])
  {
    if n >= 10 {
      DecimalIsDigits(n / 10);
    }
  }

  function ValueOf(s: string): int {
    if s == "" then 0 else 10 * ValueOf(s[..|s| - 1]) + (s[|s| - 1] as int - '0' as int)
  }

  lemma {:induction false} ValueOfDecimal(n: nat)
    ensures ValueOf(Decimal(n)) == n
  {
    if n < 10 {
      assert DigitChar(n) as int == '0' as int + n;
      assert Decimal(n)[..0] == "";
    } else {
      ValueOfDecimal(n / 10);
      assert DigitChar(n % 10) as int == '0' as int + n % 10;
      assert Decimal(n)[..|Decimal(n)| - 1] == Decimal(n / 10);
    }
  }

  lemma DecimalIsInjective(s: nat, t: nat)
    requires Decimal(s) == Decimal(t)
    ensures s == t
  {
    ValueOfDecimal(s);
    ValueOfDecimal(t);
  }

  datatype ReplayOrder = BaselineFirst | MegasaverFirst
  datatype Arm = Baseline | Megasaver

  function CacheRunSlot(order: ReplayOrder, arm: Arm): nat {
    match (order, arm)
    case (BaselineFirst, Baseline) => 0
    case (BaselineFirst, Megasaver) => 1
    case (MegasaverFirst, Baseline) => 2
    case (MegasaverFirst, Megasaver) => 3
  }

  /** The four runs of a replay have markers of one length that differ in exactly one character. */
  lemma RunMarkersDifferInOneDigit(o1: ReplayOrder, a1: Arm, o2: ReplayOrder, a2: Arm)
    ensures var m1, m2 := Marker(CacheRunSlot(o1, a1)), Marker(CacheRunSlot(o2, a2));
      && |m1| == |m2|
      && (forall i :: 0 <= i < |m1| && i != |PREFIX| ==> m1[i] == m2[i])
      && (m1[|PREFIX|] == m2[|PREFIX|] <==> (o1, a1) == (o2, a2))
  {
    var s1, s2 := CacheRunSlot(o1, a1), CacheRunSlot(o2, a2);
    assert Decimal(s1) == [DigitChar(s1)] && Decimal(s2) == [DigitChar(s2)];
    assert DigitChar(s1) == DigitChar(s2) ==> s1 == s2 by {
      assert DigitChar(s1) as int == '0' as int + s1 && DigitChar(s2) as int == '0' as int + s2;
    }
  }

  // ---------- Marking and unmarking a body ----------

  predicate HasText(b: Block) {
    b.text.Some?
  }

  predicate IsTextBreakpoint(b: Block) {
    HasText(b) && b.breakpoint
  }

  predicate IsPromptText(b: Block) {
    HasText(b) && !IsBillingHeader(b)
  }

  predicate IsMarked(b: Block) {
    HasText(b) && StartsWith(b.text.value, PREFIX)
  }

  // Array.prototype.findIndex, with None for -1
  function FindIndex(blocks: seq<Block>, p: Block -> bool, from: nat): Option<nat>
    requires from <= |blocks|
    decreases |blocks| - from
  {
    if from == |blocks| then None else if p(blocks[from]) then Some(from) else FindIndex(blocks, p, from + 1)
  }

  lemma {:induction false} FindIndexFinds(blocks: seq<Block>, p: Block -> bool, from: nat)
    requires from <= |blocks|
    ensures match FindIndex(blocks, p, from)
      case None => forall i :: from <= i < |blocks| ==> !p(blocks[i])
      case Some(k) => from <= k < |blocks| && p(blocks[k]) && forall i :: from <= i < k ==> !p(blocks[i])
    decreases |blocks| - from
  {
    if from < |blocks| && !p(blocks[from]) {
      FindIndexFinds(blocks, p, from + 1);
    }
  }

  function MarkerBlockIndex(blocks: seq<Block>): Option<nat> {
    var first := FindIndex(blocks, b => IsTextBreakpoint(b), 0);
    if first.Some? then first else FindIndex(blocks, b => IsPromptText(b), 0)
  }

  lemma MarkerBlockHasText(blocks: seq<Block>)
    ensures match MarkerBlockIndex(blocks)
      case None => forall i :: 0 <= i < |blocks| ==> !IsPromptText(blocks[i])
      case Some(k) => k < |blocks| && HasText(blocks[k])
  {
    FindIndexFinds(blocks, b => IsTextBreakpoint(b), 0);
    FindIndexFinds(blocks, b => IsPromptText(b), 0);
  }

  const FRESH_BEFORE := "{\"type\":\"text\",\"text\":"

  function FreshBlock(marker: string): Block {
    Block(FRESH_BEFORE, Some(marker), "}", false)
  }

  function NamespaceBlocks(blocks: seq<Block>, marker: string): seq<Block> {
    match MarkerBlockIndex(blocks)
    case None => [FreshBlock(marker)] + blocks
    case Some(k) =>
      MarkerBlockHasText(blocks);
      blocks[k := blocks[k].(text := Some(marker + blocks[k].text.value))]
  }

  function NamespaceSystem(system: System, marker: string): System {
    match system
    case Plain(text) => Plain(marker + text)
    case Blocks(blocks) => Blocks(NamespaceBlocks(blocks, marker))
    case NoSystem => Plain(marker)
    case OtherSystem(_) => Plain(marker)
  }

  function NamespaceCacheRun(body: Body, slot: nat): Body {
    body.(system := NamespaceSystem(body.system, Marker(slot)))
  }

  // What follows the first line break, or the whole text when there is none.
  function AfterLineBreak(s: string, whole: string): string {
    if s == "" then whole else if s[0] == '\n' then s[1..] else AfterLineBreak(s[1..], whole)
  }

  function Unmark(text: string): string {
    if StartsWith(text, PREFIX) then AfterLineBreak(text, text) else text
  }

  function StripBlocks(blocks: seq<Block>): seq<Block> {
    match FindIndex(blocks, b => IsMarked(b), 0)
    case None => blocks
    case Some(k) =>
      FindIndexFinds(blocks, b => IsMarked(b), 0);
      var bare := Unmark(blocks[k].text.value);
      if bare == "" then blocks[..k] + blocks[k + 1..] else blocks[k := blocks[k].(text := Some(bare))]
  }

  function StripSystem(system: System): System {
    match system
    case Plain(text) => if Unmark(text) == "" then NoSystem else Plain(Unmark(text))
    case Blocks(blocks) => Blocks(StripBlocks(blocks))
    case NoSystem => NoSystem
    case OtherSystem(json) => OtherSystem(json)
  }

  function StripCacheNamespace(body: Body): Body {
    body.(system := StripSystem(body.system))
  }

  // ---------- The round trip ----------

  lemma {:induction false} AfterLineBreakSkips(a: string, b: string, whole: string)
    requires forall i :: 0 <= i < |a| ==> a[i] != '\n'
    ensures AfterLineBreak(a + "\n" + b, whole) == b
  {
    var s := a + "\n" + b;
    if a != "" {
      assert s[1..] == a[1..] + "\n" + b;
      AfterLineBreakSkips(a[1..], b, whole);
    }
  }

  lemma UnmarkUndoesMark(slot: nat, text: string)
    ensures StartsWith(Marker(slot) + text, PREFIX) && Unmark(Marker(slot) + text) == text
  {
    DecimalIsDigits(slot);
    var line := PREFIX + Decimal(slot);
    assert forall i :: 0 <= i < |line| ==> line[i] == if i < |PREFIX| then PREFIX[i] else Decimal(slot)[i - |PREFIX|];
    AfterLineBreakSkips(line, text, Marker(slot) + text);
    assert Marker(slot) + text == line + "\n" + text;
  }

  // Stripping gives back this system prompt: it is not one whose marked text is empty, nor of a
  // shape the marker replaces, and nothing before the marked block looks like a marker.
  predicate Restorable(system: System) {
    match system
    case NoSystem => true
    case Plain(text) => text != ""
    case OtherSystem(_) => false
    case Blocks(blocks) =>
      match MarkerBlockIndex(blocks)
      case None => true
      case Some(k) =>
        k < |blocks| && blocks[k].text != Some("") && forall i :: 0 <= i < k ==> !IsMarked(blocks[i])
  }

  lemma StripUndoesNamespaceOnBlocks(blocks: seq<Block>, slot: nat)
    ensures StripBlocks(NamespaceBlocks(blocks, Marker(slot))) == blocks <==> Restorable(Blocks(blocks))
  {
    hide Marker, Unmark;
    MarkerBlockHasText(blocks);
    var marked := NamespaceBlocks(blocks, Marker(slot));
    FindIndexFinds(marked, b => IsMarked(b), 0);
    match MarkerBlockIndex(blocks)
    case None =>
      UnmarkUndoesMark(slot, "");
      assert Marker(slot) + "" == Marker(slot);
      assert IsMarked(marked[0]);
      assert marked[..0] + marked[1..] == blocks;
    case Some(k) =>
      UnmarkUndoesMark(slot, blocks[k].text.value);
      assert IsMarked(marked[k]);
      if forall i :: 0 <= i < k ==> !IsMarked(blocks[i]) {
        assert FindIndex(marked, b => IsMarked(b), 0) == Some(k);
        if blocks[k].text.value != "" {
          assert marked[k := marked[k].(text := blocks[k].text)] == blocks;
        }
      } else {
        var found := FindIndex(marked, b => IsMarked(b), 0);
        assert found.Some? && found.value < k by {
          var i :| 0 <= i < k && IsMarked(blocks[i]);
          assert IsMarked(marked[i]);
        }
        assert StripBlocks(marked) != blocks by {
          assert |Marker(slot) + blocks[k].text.value| > |blocks[k].text.value| by {
            DecimalIsDigits(slot);
            assert |Marker(slot)| > 0 by {
              MarkerIsLong(slot);
            }
          }
          if |StripBlocks(marked)| == |blocks| {
            assert StripBlocks(marked)[k] == marked[k] != blocks[k];
          }
        }
      }
  }

  lemma MarkerIsLong(slot: nat)
    ensures |Marker(slot)| > |PREFIX| == 29
  {
  }

  /** Stripping undoes namespacing exactly for the restorable system prompts. */
  lemma StripUndoesNamespaceIff(body: Body, slot: nat)
    ensures StripCacheNamespace(NamespaceCacheRun(body, slot)) == body <==> Restorable(body.system)
  {
    match body.system
    case Plain(text) => UnmarkUndoesMark(slot, text);
    case Blocks(blocks) => StripUndoesNamespaceOnBlocks(blocks, slot);
    case NoSystem =>
      UnmarkUndoesMark(slot, "");
      assert Marker(slot) + "" == Marker(slot);
    case OtherSystem(_) =>
  }

  // An empty system prompt does not come back.
  lemma EmptySystemIsLost(slot: nat)
    ensures StripCacheNamespace(NamespaceCacheRun(Body([], Plain(""), []), slot)) == Body([], NoSystem, [])
  {
    UnmarkUndoesMark(slot, "");
    assert Marker(slot) + "" == Marker(slot);
  }
}
