/** Recorded request bodies and the segments they render to (bench-replay/src/cache-model.ts). */
module RequestRendering {
  import opened Prelude
  import opened CacheModel

  // ---------- JSON text ----------

  function HexDigit(n: nat): char
    requires n < 16
  {
    "0123456789abcdef"[n]
  }

  function EscapeChar(c: char): string {
    if c == '"' then "\\\""
    else if c == '\\' then "\\\\"
    else if c as int == 8 then "\\b"
    else if c as int == 9 then "\\t"
    else if c as int == 10 then "\\n"
    else if c as int == 12 then "\\f"
    else if c as int == 13 then "\\r"
    else if c as int < 0x20 then "\\u00" + [HexDigit(c as int / 16), HexDigit(c as int % 16)]
    else [c]
  }

  function Escape(s: string): string {
    if s == "" then "" else EscapeChar(s[0]) + Escape(s[1..])
  }

  function JsonString(s: string): string {
    "\"" + Escape(s) + "\""
  }

  lemma {:induction false} EscapeSum(a: string, b: string)
    ensures Escape(a + b) == Escape(a) + Escape(b)
  {
    if a == "" {
      assert a + b == b;
    } else {
      assert (a + b)[1..] == a[1..] + b;
      EscapeSum(a[1..], b);
    }
  }

  predicate NeedsNoEscape(s: string) {
    forall i :: 0 <= i < |s| ==> s[i] as int >= 0x20 && s[i] != '"' && s[i] != '\\'
  }

  lemma {:induction false} EscapeOfPlain(s: string)
    requires NeedsNoEscape(s)
    ensures Escape(s) == s
  {
    if s != "" {
      EscapeOfPlain(s[1..]);
      assert s == [s[0]] + s[1..];
    }
  }

  // ---------- Bodies ----------

  // A content block as its JSON text without cache_control.  A block with a text property renders
  // to `before`, the quoted text and `after`; any other block to `before` and `after`.
  datatype Block = Block(before: string, text: Option<string>, after: string, breakpoint: bool)

  datatype System = NoSystem | Plain(text: string) | Blocks(blocks: seq<Block>) | OtherSystem(json: string)

  // Array content, or any other content with the JSON text it renders to.
  datatype Message = Parts(blocks: seq<Block>) | Whole(json: string, breakpoint: bool)

  datatype Body = Body(tools: seq<Block>, system: System, messages: seq<Message>)

  function BlockJson(b: Block): string {
    if b.text.Some? then b.before + JsonString(b.text.value) + b.after else b.before + b.after
  }

  const BILLING_HEADER := "x-anthropic-billing-header:"

  predicate StartsWith(s: string, prefix: string) {
    prefix <= s
  }

  predicate IsBillingHeader(b: Block) {
    b.text.Some? && StartsWith(b.text.value, BILLING_HEADER)
  }

  function BlockSegment(b: Block): Segment {
    Segment(BlockJson(b), b.breakpoint)
  }

  function BlockSegments(blocks: seq<Block>): seq<Segment> {
    if blocks == [] then [] else BlockSegments(blocks[..|blocks| - 1]) + [BlockSegment(blocks[|blocks| - 1])]
  }

  // The platform strips the billing header before it renders the prompt.
  function SystemBlockSegments(blocks: seq<Block>): seq<Segment> {
    if blocks == [] then []
    else
      SystemBlockSegments(blocks[..|blocks| - 1])
      + if IsBillingHeader(blocks[|blocks| - 1]) then [] else [BlockSegment(blocks[|blocks| - 1])]
  }

  function SystemSegments(system: System): seq<Segment> {
    match system
    case NoSystem => []
    case Plain(text) => [Segment(JsonString(text), false)]
    case Blocks(blocks) => SystemBlockSegments(blocks)
    case OtherSystem(_) => []
  }

  function MessageSegments(message: Message): seq<Segment> {
    match message
    case Parts(blocks) => BlockSegments(blocks)
    case Whole(json, breakpoint) => [Segment(json, breakpoint)]
  }

  function MessagesSegments(messages: seq<Message>): seq<Segment> {
    if messages == [] then []
    else MessagesSegments(messages[..|messages| - 1]) + MessageSegments(messages[|messages| - 1])
  }

  // tools, then system, then messages
  function Segments(body: Body): seq<Segment> {
    BlockSegments(body.tools) + SystemSegments(body.system) + MessagesSegments(body.messages)
  }

  method PushBlocks(into: seq<Segment>, blocks: seq<Block>, skipBilling: bool) returns (segments: seq<Segment>)
    ensures segments == into + if skipBilling then SystemBlockSegments(blocks) else BlockSegments(blocks)
  {
    segments := into;
    for b := 0 to |blocks|
      invariant segments == into + if skipBilling then SystemBlockSegments(blocks[..b]) else BlockSegments(blocks[..b])
    {
      assert blocks[..b + 1][..b] == blocks[..b];
      if skipBilling && IsBillingHeader(blocks[b]) {
        continue;
      }
      segments := segments + [BlockSegment(blocks[b])];
    }
    assert blocks[..|blocks|] == blocks;
  }

  /** The pushes of the source give exactly these segments, in this order. */
  method SegmentsOf(body: Body) returns (segments: seq<Segment>)
    ensures segments == Segments(body)
  {
    hide BlockSegments, SystemBlockSegments, JsonString;
    segments := PushBlocks([], body.tools, false);
    match body.system {
      case Plain(text) =>
        segments := segments + [Segment(JsonString(text), false)];
      case Blocks(blocks) =>
        segments := PushBlocks(segments, blocks, true);
      case _ =>
    }
    assert segments == BlockSegments(body.tools) + SystemSegments(body.system);
    segments := PushMessages(segments, body.messages);
  }

  method PushMessages(into: seq<Segment>, messages: seq<Message>) returns (segments: seq<Segment>)
    ensures segments == into + MessagesSegments(messages)
  {
    hide BlockSegments, SystemBlockSegments;
    segments := into;
    for m := 0 to |messages|
      invariant segments == into + MessagesSegments(messages[..m])
    {
      assert messages[..m + 1][..m] == messages[..m];
      match messages[m] {
        case Parts(blocks) =>
          segments := PushBlocks(segments, blocks, false);
        case Whole(json, breakpoint) =>
          segments := segments + [Segment(json, breakpoint)];
      }
    }
    assert messages[..|messages|] == messages;
  }
}
