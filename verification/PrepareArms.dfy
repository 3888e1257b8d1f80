/** Preparing the two replay arms from one recording (bench-replay/src/transform.ts). */
module PrepareArms {
  import opened Prelude
  import CacheModel

  // ---------- Recorded requests ----------

  datatype Part = TextPart(text: string) | OtherPart(json: string)

  // The content of a tool result: a string, an array of parts, or anything else.
  datatype Content = Str(text: string) | Parts(parts: seq<Part>) | OtherContent(json: string)

  datatype Block =
    | ToolUse(id: string, name: string, input: string)
    | ToolResult(toolUseId: Option<string>, content: Content, rest: string)
    | OtherBlock(json: string)

  // A message with array content, or any other message.
  datatype Message = Blocks(header: string, blocks: seq<Block>) | OtherMessage(json: string)

  datatype CacheControl = NoCacheControl | CacheControl(scope: Option<string>, rest: string)

  datatype SystemBlock = SystemBlock(cacheControl: CacheControl, json: string)

  datatype Request = Request(
    messages: seq<Message>,
    system: Option<seq<SystemBlock>>,  // None: not an array
    budgetTokens: Option<int>,
    maxTokens: int,
    rest: string)

  datatype ToolCall = ToolCall(toolUseId: string, toolName: string, toolInput: string)

  datatype PrepareError =
    | AlreadyCompressed(index: nat)
    | BudgetTooLarge(index: nat)
    | SaverFailed(index: nat, reason: string)
    | NotACompression(count: nat)

  // ---------- Rewriting, given the decisions ----------

  predicate IsText(p: Part) {
    p.TextPart?
  }

  function TextsOf(parts: seq<Part>): seq<string> {
    if parts == [] then []
    else TextsOf(parts[..|parts| - 1]) + if IsText(parts[|parts| - 1]) then [parts[|parts| - 1].text] else []
  }

  function JoinLines(texts: seq<string>): string {
    if texts == [] then "" else if |texts| == 1 then texts[0] else texts[0] + "\n" + JoinLines(texts[1..])
  }

  // The text the saver is shown, if there is any.
  function RawOf(content: Content): Option<string> {
    match content
    case Str(text) => Some(text)
    case Parts(parts) => if TextsOf(parts) == [] then None else Some(JoinLines(TextsOf(parts)))
    case OtherContent(_) => None
  }

  // One text part at the place of the first, the other text parts gone, the rest in order.
  function ReplaceTexts(parts: seq<Part>, replacement: string): seq<Part> {
    if parts == [] then []
    else if IsText(parts[0]) then [TextPart(replacement)] + WithoutTexts(parts[1..])
    else [parts[0]] + ReplaceTexts(parts[1..], replacement)
  }

  function WithoutTexts(parts: seq<Part>): seq<Part> {
    if parts == [] then []
    else if IsText(parts[0]) then WithoutTexts(parts[1..])
    else [parts[0]] + WithoutTexts(parts[1..])
  }

  function RewriteContent(content: Content, decision: Option<string>): Content {
    if decision == None then content
    else
      match content
      case Str(_) => Str(decision.value)
      case Parts(parts) => if TextsOf(parts) == [] then content else Parts(ReplaceTexts(parts, decision.value))
      case OtherContent(_) => content
  }

  type Decisions = map<string, Option<string>>

  // The saver is asked about this block.
  predicate Asks(b: Block) {
    b.ToolResult? && b.toolUseId.Some? && RawOf(b.content).Some?
  }

  function RewriteBlock(b: Block, d: Decisions): Block {
    if Asks(b) && b.toolUseId.value in d then b.(content := RewriteContent(b.content, d[b.toolUseId.value])) else b
  }

  function RewriteBlocks(blocks: seq<Block>, d: Decisions): seq<Block> {
    seq(|blocks|, i requires 0 <= i < |blocks| => RewriteBlock(blocks[i], d))
  }

  function RewriteMessage(m: Message, d: Decisions): Message {
    if m.Blocks? then m.(blocks := RewriteBlocks(m.blocks, d)) else m
  }

  function RewriteMessages(messages: seq<Message>, d: Decisions): seq<Message> {
    seq(|messages|, i requires 0 <= i < |messages| => RewriteMessage(messages[i], d))
  }

  function RewriteRequest(r: Request, d: Decisions): Request {
    r.(messages := RewriteMessages(r.messages, d))
  }

  // Every block the saver is asked about has been decided.
  ghost predicate BlocksDecided(blocks: seq<Block>, d: Decisions) {
    forall i :: 0 <= i < |blocks| && Asks(blocks[i]) ==> blocks[i].toolUseId.value in d
  }

  ghost predicate MessagesDecided(messages: seq<Message>, d: Decisions) {
    forall i :: 0 <= i < |messages| && messages[i].Blocks? ==> BlocksDecided(messages[i].blocks, d)
  }

  ghost predicate Extends(d: Decisions, later: Decisions) {
    forall id :: id in d ==> id in later && later[id] == d[id]
  }

  lemma LaterDecisionsChangeNothing(messages: seq<Message>, d: Decisions, later: Decisions)
    requires MessagesDecided(messages, d) && Extends(d, later)
    ensures RewriteMessages(messages, later) == RewriteMessages(messages, d)
    ensures MessagesDecided(messages, later)
  {
    forall i | 0 <= i < |messages|
      ensures RewriteMessage(messages[i], later) == RewriteMessage(messages[i], d)
    {
      if messages[i].Blocks? {
        assert BlocksDecided(messages[i].blocks, d);
        assert RewriteBlocks(messages[i].blocks, later) == RewriteBlocks(messages[i].blocks, d);
      }
    }
    assert RewriteMessages(messages, later) == RewriteMessages(messages, d);
  }

  /** If one request's messages extend another's, so do the rewritten ones. */
  lemma RewritingKeepsPrefixes(shorter: Request, longer: Request, d: Decisions)
    requires shorter.messages <= longer.messages
    ensures RewriteRequest(shorter, d).messages <= RewriteRequest(longer, d).messages
  {
    assert forall i :: 0 <= i < |shorter.messages| ==> shorter.messages[i] == longer.messages[i];
  }

  // ---------- What the arms have in common ----------

  // The request with the contents of its tool results blanked.
  function EraseBlocks(blocks: seq<Block>): seq<Block> {
    seq(|blocks|, i requires 0 <= i < |blocks| =>
      if blocks[i].ToolResult? then blocks[i].(content := Str("")) else blocks[i])
  }

  function Erase(r: Request): Request {
    r.(messages := seq(|r.messages|, i requires 0 <= i < |r.messages| =>
      if r.messages[i].Blocks? then r.messages[i].(blocks := EraseBlocks(r.messages[i].blocks)) else r.messages[i]))
  }

  lemma RewritingTouchesOnlyToolResults(r: Request, d: Decisions)
    ensures Erase(RewriteRequest(r, d)) == Erase(r)
  {
    var w := RewriteRequest(r, d);
    forall i | 0 <= i < |r.messages|
      ensures Erase(w).messages[i] == Erase(r).messages[i]
    {
      if r.messages[i].Blocks? {
        assert EraseBlocks(w.messages[i].blocks) == EraseBlocks(r.messages[i].blocks);
      }
    }
    assert Erase(w).messages == Erase(r).messages;
  }

  lemma {:induction false} WithoutTextsOfReplaced(parts: seq<Part>, replacement: string)
    requires TextsOf(parts) != []
    ensures WithoutTexts(ReplaceTexts(parts, replacement)) == WithoutTexts(parts)
    ensures TextsOf(ReplaceTexts(parts, replacement)) == [replacement]
  {
    if parts == [] {
    } else {
      TextsFromFront(parts);
      var rest := parts[1..];
      if IsText(parts[0]) {
        WithoutTextsHasNone(rest);
        TextsFromFront(ReplaceTexts(parts, replacement));
        assert ReplaceTexts(parts, replacement)[1..] == WithoutTexts(rest);
      } else {
        WithoutTextsOfReplaced(rest, replacement);
        TextsFromFront(ReplaceTexts(parts, replacement));
        assert ReplaceTexts(parts, replacement)[1..] == ReplaceTexts(rest, replacement);
      }
    }
  }

  lemma {:induction false} TextsFromFront(parts: seq<Part>)
    requires parts != []
    ensures TextsOf(parts) == (if IsText(parts[0]) then [parts[0].text] else []) + TextsOf(parts[1..])
  {
    var n := |parts| - 1;
    if n > 0 {
      TextsFromFront(parts[..n]);
      assert parts[..n][1..] == parts[1..][..n - 1];
    } else {
      assert parts[..0] == [] == parts[1..];
    }
  }

  lemma {:induction false} WithoutTextsHasNone(parts: seq<Part>)
    ensures TextsOf(WithoutTexts(parts)) == [] && WithoutTexts(WithoutTexts(parts)) == WithoutTexts(parts)
  {
    if parts != [] {
      WithoutTextsHasNone(parts[1..]);
      if !IsText(parts[0]) {
        TextsFromFront(WithoutTexts(parts));
        assert WithoutTexts(parts)[1..] == WithoutTexts(parts[1..]);
      }
    }
  }

  /** A replacement is all the text a rewritten tool result has, and everything that is not text is
      still there in order. */
  lemma ReplacementIsTheWholeText(content: Content, replacement: string)
    requires RawOf(content).Some?
    ensures RawOf(RewriteContent(content, Some(replacement))) == Some(replacement)
    ensures content.Parts? ==>
      RewriteContent(content, Some(replacement)).Parts?
      && WithoutTexts(RewriteContent(content, Some(replacement)).parts) == WithoutTexts(content.parts)
  {
    if content.Parts? {
      WithoutTextsOfReplaced(content.parts, replacement);
    }
  }

  // ---------- The memoised saver ----------

  // What a consulted saver may do: replace, pass through, or throw.
  datatype Answer = Replace(text: string) | PassThrough | Throw(reason: string)

  const SAVER_FOOTER_MARKER := "[Mega Saver: compressed "

  predicate Includes(s: string, t: string) {
    exists q :: 0 <= q <= |s| && OccursAt(s, t, q)
  }

  predicate OccursAt(s: string, t: string, q: nat)
    requires q <= |s|
  {
    q + |t| <= |s| && s[q..q + |t|] == t
  }

  // An applied decision that keeps the saver's contract: footer present, strictly smaller.
  predicate IsCompression(raw: string, replacement: string) {
    Includes(replacement, SAVER_FOOTER_MARKER) && CacheModel.ByteLength(replacement) < CacheModel.ByteLength(raw)
  }

  // What is counted about the tool calls decided so far.
  datatype Tally = Tally(applied: int, passthrough: int, originalBytes: int, transformedBytes: int, violations: int)

  function Counted(t: Tally, raw: string, decision: Option<string>): Tally {
    Tally(t.applied + (if decision.Some? then 1 else 0),
          t.passthrough + (if decision.Some? then 0 else 1),
          t.originalBytes + CacheModel.ByteLength(raw),
          t.transformedBytes + CacheModel.ByteLength(decision.GetOr(raw)),
          t.violations + if decision.Some? && !IsCompression(raw, decision.value) then 1 else 0)
  }

  // A tool call the saver was asked about, and the text it was shown.
  datatype Asked = Asked(toolUseId: string, raw: string)

  ghost predicate AskedOnce(consulted: seq<Asked>) {
    forall i, j :: 0 <= i < j < |consulted| ==> consulted[i].toolUseId != consulted[j].toolUseId
  }

  predicate WasAsked(consulted: seq<Asked>, id: string) {
    exists k :: 0 <= k < |consulted| && consulted[k].toolUseId == id
  }

  // What a saver that did not throw decided.
  function DecisionOf(a: Answer): Option<string> {
    if a.Replace? then Some(a.text) else None
  }

  function NextAnswer(answers: seq<Answer>): Answer {
    if answers == [] then Throw("no answer") else answers[0]
  }

  function TallyOf(consulted: seq<Asked>, heard: seq<Answer>): Tally
    requires |heard| == |consulted|
  {
    if consulted == [] then Tally(0, 0, 0, 0, 0)
    else
      var n := |consulted| - 1;
      Counted(TallyOf(consulted[..n], heard[..n]), consulted[n].raw, DecisionOf(heard[n]))
  }

  // The k-th call asked about got the k-th answer, for good.
  ghost predicate DecidedAsHeard(consulted: seq<Asked>, heard: seq<Answer>, d: Decisions) {
    && |heard| == |consulted|
    && forall k :: 0 <= k < |consulted| ==>
         && !heard[k].Throw? && consulted[k].toolUseId in d
         && d[consulted[k].toolUseId] == DecisionOf(heard[k])
  }

  lemma OneMoreHeard(consulted: seq<Asked>, heard: seq<Answer>, d: Decisions, asked: Asked, answer: Answer)
    requires DecidedAsHeard(consulted, heard, d) && !WasAsked(consulted, asked.toolUseId) && !answer.Throw?
    ensures DecidedAsHeard(consulted + [asked], heard + [answer], d[asked.toolUseId := DecisionOf(answer)])
    ensures TallyOf(consulted + [asked], heard + [answer])
      == Counted(TallyOf(consulted, heard), asked.raw, DecisionOf(answer))
    ensures AskedOnce(consulted) ==> AskedOnce(consulted + [asked])
    ensures forall id :: WasAsked(consulted + [asked], id) <==> WasAsked(consulted, id) || id == asked.toolUseId
  {
    hide Counted, DecisionOf;
    assert (consulted + [asked])[..|consulted|] == consulted && (heard + [answer])[..|heard|] == heard;
    forall id
      ensures WasAsked(consulted + [asked], id) <==> WasAsked(consulted, id) || id == asked.toolUseId
    {
      if k :| 0 <= k < |consulted| && consulted[k].toolUseId == id {
        assert (consulted + [asked])[k].toolUseId == id;
      }
      assert (consulted + [asked])[|consulted|] == asked;
    }
  }

  /** When every replacement compresses, each applied one saves at least a byte. */
  lemma {:induction false} CompressionsShrink(consulted: seq<Asked>, heard: seq<Answer>)
    requires |heard| == |consulted|
    ensures var t := TallyOf(consulted, heard);
      && t.applied + t.passthrough == |consulted| && t.violations >= 0
      && (t.violations == 0 ==> t.transformedBytes + t.applied <= t.originalBytes)
  {
    hide Includes, CacheModel.ByteLength;
    if consulted != [] {
      CompressionsShrink(consulted[..|consulted| - 1], heard[..|consulted| - 1]);
    }
  }

  // The replacement holds the footer's opening words somewhere and is smaller than what it replaces.
  ghost predicate KeepsContract(raw: string, a: Answer) {
    a.Replace? ==>
      && CacheModel.ByteLength(a.text) < CacheModel.ByteLength(raw)
      && exists head, tail :: a.text == head + "[Mega Saver: compressed " + tail
  }

  lemma IncludesIff(s: string, t: string)
    ensures Includes(s, t) <==> exists head, tail :: s == head + t + tail
  {
    if q :| 0 <= q <= |s| && OccursAt(s, t, q) {
      assert s == s[..q] + t + s[q + |t|..];
    }
    if head, tail :| s == head + t + tail {
      assert OccursAt(s, t, |head|);
    }
  }

  lemma ViolationIff(t: Tally, raw: string, a: Answer)
    ensures Counted(t, raw, DecisionOf(a)).violations == t.violations + if KeepsContract(raw, a) then 0 else 1
  {
    if a.Replace? {
      IncludesIff(a.text, SAVER_FOOTER_MARKER);
    }
    hide Includes, CacheModel.ByteLength;
  }

  /** There are no violations exactly when every replacement keeps the saver's contract. */
  lemma {:induction false} NoViolationsIff(consulted: seq<Asked>, heard: seq<Answer>)
    requires |heard| == |consulted|
    ensures TallyOf(consulted, heard).violations >= 0
    ensures TallyOf(consulted, heard).violations == 0 <==>
      forall k :: 0 <= k < |consulted| ==> KeepsContract(consulted[k].raw, heard[k])
  {
    hide KeepsContract, Counted;
    if consulted != [] {
      var n := |consulted| - 1;
      NoViolationsIff(consulted[..n], heard[..n]);
      ViolationIff(TallyOf(consulted[..n], heard[..n]), consulted[n].raw, heard[n]);
      assert forall k :: 0 <= k < n ==> consulted[..n][k] == consulted[k] && heard[..n][k] == heard[k];
    }
  }

  class Saver {
    var answers: seq<Answer>    // what the saver will say, call by call; anything goes
    var decisions: Decisions
    var consulted: seq<Asked>   // the tool calls the saver was asked about, in order
    ghost var heard: seq<Answer>
    var applied: nat
    var passthrough: nat
    var failed: nat
    var originalBytes: nat
    var transformedBytes: nat
    var violations: nat

    ghost predicate Valid()
      reads this
    {
      && failed == 0
      && AskedOnce(consulted)
      && (forall id :: id in decisions <==> WasAsked(consulted, id))
      && DecidedAsHeard(consulted, heard, decisions)
      && Tallied() == TallyOf(consulted, heard)
    }

    ghost function Tallied(): Tally
      reads this
    {
      Tally(applied, passthrough, originalBytes, transformedBytes, violations)
    }

    constructor (answers: seq<Answer>)
      ensures Valid() && this.answers == answers && decisions == map[] && consulted == [] && heard == []
    {
      this.answers := answers;
      decisions, consulted, heard := map[], [], [];
      applied, passthrough, failed, originalBytes, transformedBytes, violations := 0, 0, 0, 0, 0, 0;
    }

    /** A decision is made once and then repeated; a throw decides nothing. */
    method Decide(raw: string, call: ToolCall) returns (r: Result<Option<string>, string>)
      requires Valid()
      modifies this
      ensures Extends(old(decisions), decisions)
      ensures r.Ok? ==> Valid() && call.toolUseId in decisions && decisions[call.toolUseId] == r.value
      ensures r.Ok? ==> heard + answers == old(heard + answers)
      ensures call.toolUseId in old(decisions) ==>
        && r == Ok(old(decisions)[call.toolUseId])
        && consulted == old(consulted) && heard == old(heard) && answers == old(answers)
      ensures call.toolUseId !in old(decisions) ==>
        && consulted == old(consulted) + [Asked(call.toolUseId, raw)] && AskedOnce(consulted)
        && heard == old(heard) + [NextAnswer(old(answers))]
        && (r.Err? <==> NextAnswer(old(answers)).Throw?)
      ensures r.Err? ==> decisions == old(decisions) && failed == 1
    {
      hide CacheModel.ByteLength, IsCompression, TallyOf, DecidedAsHeard, WasAsked, AskedOnce;
      if call.toolUseId in decisions {
        return Ok(decisions[call.toolUseId]);
      }
      var answer := NextAnswer(answers);
      var asked := Asked(call.toolUseId, raw);
      AskedOnceMore(consulted, asked);
      if !answer.Throw? {
        OneMoreHeard(consulted, heard, decisions, asked, answer);
      }
      answers := if answers == [] then [] else answers[1..];
      heard := heard + [answer];
      consulted := consulted + [asked];
      if answer.Throw? {
        failed := failed + 1;
        return Err(answer.reason);
      }
      var decision := DecisionOf(answer);
      Count(raw, decision);
      decisions := decisions[call.toolUseId := decision];
      return Ok(decision);
    }

    method Count(raw: string, decision: Option<string>)
      modifies `applied, `passthrough, `originalBytes, `transformedBytes, `violations
      ensures Tallied() == Counted(old(Tallied()), raw, decision)
    {
      hide Includes, CacheModel.ByteLength;
      if decision == None {
        passthrough := passthrough + 1;
      } else {
        applied := applied + 1;
      }
      originalBytes := originalBytes + CacheModel.ByteLength(raw);
      transformedBytes := transformedBytes + CacheModel.ByteLength(decision.GetOr(raw));
      if decision.Some? && !IsCompression(raw, decision.value) {
        violations := violations + 1;
      }
    }
  }

  lemma AskedOnceMore(consulted: seq<Asked>, asked: Asked)
    requires AskedOnce(consulted) && !WasAsked(consulted, asked.toolUseId)
    ensures AskedOnce(consulted + [asked])
  {
  }

  // ---------- One request ----------

  // The call each tool_use id stands for; the last block of an id wins.
  function CallsIn(blocks: seq<Block>): map<string, ToolCall> {
    if blocks == [] then map[]
    else
      var last := blocks[|blocks| - 1];
      var earlier := CallsIn(blocks[..|blocks| - 1]);
      if last.ToolUse? then earlier[last.id := ToolCall(last.id, last.name, last.input)] else earlier
  }

  function CallsOf(messages: seq<Message>): map<string, ToolCall> {
    if messages == [] then map[]
    else
      var last := messages[|messages| - 1];
      CallsOf(messages[..|messages| - 1]) + if last.Blocks? then CallsIn(last.blocks) else map[]
  }

  lemma {:induction false} CallsInAreOfTheirId(blocks: seq<Block>, id: string)
    requires id in CallsIn(blocks)
    ensures CallsIn(blocks)[id].toolUseId == id
  {
    var last := blocks[|blocks| - 1];
    if !(last.ToolUse? && last.id == id) {
      CallsInAreOfTheirId(blocks[..|blocks| - 1], id);
    }
  }

  lemma {:induction false} CallsAreOfTheirId(messages: seq<Message>, id: string)
    requires id in CallsOf(messages)
    ensures CallsOf(messages)[id].toolUseId == id
  {
    var last := messages[|messages| - 1];
    if last.Blocks? && id in CallsIn(last.blocks) {
      CallsInAreOfTheirId(last.blocks, id);
    } else {
      CallsAreOfTheirId(messages[..|messages| - 1], id);
    }
  }

  // Block b of message m is a tool_use with the id.
  predicate UsesAt(messages: seq<Message>, m: int, b: int, id: string) {
    && 0 <= m < |messages| && messages[m].Blocks? && 0 <= b < |messages[m].blocks|
    && messages[m].blocks[b].ToolUse? && messages[m].blocks[b].id == id
  }

  // ... and no later block is.
  ghost predicate UsesLastAt(messages: seq<Message>, m: int, b: int, id: string) {
    && UsesAt(messages, m, b, id)
    && forall m', b' :: UsesAt(messages, m', b', id) ==> m' < m || (m' == m && b' <= b)
  }

  lemma {:induction false} LastInBlocksWins(blocks: seq<Block>, b: nat, id: string)
    requires b < |blocks| && blocks[b].ToolUse? && blocks[b].id == id
    requires forall k :: b < k < |blocks| ==> !(blocks[k].ToolUse? && blocks[k].id == id)
    ensures id in CallsIn(blocks) && CallsIn(blocks)[id] == ToolCall(id, blocks[b].name, blocks[b].input)
  {
    var n := |blocks| - 1;
    if b < n {
      LastInBlocksWins(blocks[..n], b, id);
    }
  }

  lemma {:induction false} NoneInBlocks(blocks: seq<Block>, id: string)
    requires forall k :: 0 <= k < |blocks| ==> !(blocks[k].ToolUse? && blocks[k].id == id)
    ensures id !in CallsIn(blocks)
  {
    if blocks != [] {
      NoneInBlocks(blocks[..|blocks| - 1], id);
    }
  }

  /** The call an id stands for is its last tool_use block in the request. */
  lemma {:induction false} LastToolUseWins(messages: seq<Message>, m: nat, b: nat, id: string)
    requires UsesLastAt(messages, m, b, id)
    ensures id in CallsOf(messages)
    ensures CallsOf(messages)[id] == ToolCall(id, messages[m].blocks[b].name, messages[m].blocks[b].input)
  {
    hide CallsIn;
    var n := |messages| - 1;
    var front, last := messages[..n], messages[n];
    if m == n {
      forall k | b < k < |last.blocks| ensures !(last.blocks[k].ToolUse? && last.blocks[k].id == id) {
        assert UsesAt(messages, n, k, id) ==> k <= b;
      }
      LastInBlocksWins(last.blocks, b, id);
    } else {
      assert UsesLastAt(front, m, b, id) by {
        assert forall m', b' :: UsesAt(front, m', b', id) ==> UsesAt(messages, m', b', id);
      }
      LastToolUseWins(front, m, b, id);
      if last.Blocks? {
        forall k | 0 <= k < |last.blocks| ensures !(last.blocks[k].ToolUse? && last.blocks[k].id == id) {
          assert UsesAt(messages, n, k, id) ==> n <= m;
        }
        NoneInBlocks(last.blocks, id);
      }
    }
  }

  /** An id without a tool_use block stands for no call. */
  lemma {:induction false} UnusedIdsHaveNoCall(messages: seq<Message>, id: string)
    requires forall m, b :: !UsesAt(messages, m, b, id)
    ensures id !in CallsOf(messages)
  {
    hide CallsIn;
    if messages != [] {
      var n := |messages| - 1;
      assert forall m, b :: UsesAt(messages[..n], m, b, id) ==> UsesAt(messages, m, b, id);
      UnusedIdsHaveNoCall(messages[..n], id);
      if messages[n].Blocks? {
        var blocks := messages[n].blocks;
        forall k | 0 <= k < |blocks| ensures !(blocks[k].ToolUse? && blocks[k].id == id) {
          assert !UsesAt(messages, n, k, id);
        }
        NoneInBlocks(blocks, id);
      }
    }
  }

  method CollectToolCalls(r: Request) returns (calls: map<string, ToolCall>)
    ensures calls == CallsOf(r.messages)
  {
    calls := map[];
    for m := 0 to |r.messages|
      invariant calls == CallsOf(r.messages[..m])
    {
      assert r.messages[..m + 1][..m] == r.messages[..m];
      if r.messages[m].Blocks? {
        var blocks := r.messages[m].blocks;
        ghost var before := calls;
        for b := 0 to |blocks|
          invariant calls == before + CallsIn(blocks[..b])
        {
          assert blocks[..b + 1][..b] == blocks[..b];
          if blocks[b].ToolUse? {
            calls := calls[blocks[b].id := ToolCall(blocks[b].id, blocks[b].name, blocks[b].input)];
          }
        }
        assert blocks[..|blocks|] == blocks;
      }
    }
    assert r.messages[..|r.messages|] == r.messages;
  }

  // Every tool result answers a call of the request.
  ghost predicate BlocksResolve(blocks: seq<Block>, calls: map<string, ToolCall>) {
    forall i :: 0 <= i < |blocks| && blocks[i].ToolResult? ==> blocks[i].toolUseId.Some? && blocks[i].toolUseId.value in calls
  }

  ghost predicate Resolves(r: Request) {
    forall i :: 0 <= i < |r.messages| && r.messages[i].Blocks? ==> BlocksResolve(r.messages[i].blocks, CallsOf(r.messages))
  }

  // A saver that has failed was asked about one undecided call more, and will not be asked again.
  twostate predicate Advanced(saver: Saver, ok: bool)
    reads saver
  {
    && Extends(old(saver.decisions), saver.decisions)
    && (ok ==> saver.Valid() && saver.heard + saver.answers == old(saver.heard + saver.answers))
    && AskedOnce(saver.consulted)
  }

  // ---------- What the saver is asked ----------

  // Each id once, at its first text.
  function AskBlock(asked: seq<Asked>, b: Block): seq<Asked> {
    if Asks(b) && !WasAsked(asked, b.toolUseId.value) then asked + [Asked(b.toolUseId.value, RawOf(b.content).value)]
    else asked
  }

  function AskBlocks(asked: seq<Asked>, blocks: seq<Block>): seq<Asked> {
    if blocks == [] then asked else AskBlock(AskBlocks(asked, blocks[..|blocks| - 1]), blocks[|blocks| - 1])
  }

  function AskMessages(asked: seq<Asked>, messages: seq<Message>): seq<Asked> {
    if messages == [] then asked
    else
      var earlier := AskMessages(asked, messages[..|messages| - 1]);
      if messages[|messages| - 1].Blocks? then AskBlocks(earlier, messages[|messages| - 1].blocks) else earlier
  }

  function AskRequests(requests: seq<Request>): seq<Asked> {
    if requests == [] then []
    else AskMessages(AskRequests(requests[..|requests| - 1]), requests[|requests| - 1].messages)
  }

  // rewriteToolResultContent: the saver is shown the text, if there is any.
  method RewriteToolResult(block: Block, call: ToolCall, saver: Saver) returns (r: Result<Block, string>)
    requires saver.Valid() && block.ToolResult? && block.toolUseId == Some(call.toolUseId)
    modifies saver
    ensures Advanced(saver, r.Ok?)
    ensures r.Err? ==> saver.failed == 1
    ensures r.Ok? ==>
      && r.value == RewriteBlock(block, saver.decisions)
      && (Asks(block) ==> call.toolUseId in saver.decisions)
      && saver.consulted == AskBlock(old(saver.consulted), block)
  {
    hide TallyOf, DecidedAsHeard, AskedOnce, WasAsked, RewriteContent;
    var raw := RawOf(block.content);
    if raw == None {
      return Ok(block);
    }
    var decision := saver.Decide(raw.value, call);
    if decision.Err? {
      return Err(decision.error);
    }
    r := Ok(block.(content := RewriteContent(block.content, decision.value)));
  }

  lemma NotAsked(asked: seq<Asked>, b: Block)
    requires !Asks(b)
    ensures AskBlock(asked, b) == asked
  {
  }

  method TransformBlocks(blocks: seq<Block>, calls: map<string, ToolCall>, saver: Saver)
    returns (r: Result<seq<Block>, string>)
    requires saver.Valid() && forall id :: id in calls ==> calls[id].toolUseId == id
    modifies saver
    ensures Advanced(saver, r.Ok?)
    ensures r.Ok? ==> BlocksResolve(blocks, calls)
    ensures r.Err? ==> saver.failed == 1 || !BlocksResolve(blocks, calls)
    ensures r.Ok? ==> r.value == RewriteBlocks(blocks, saver.decisions) && BlocksDecided(blocks, saver.decisions)
    ensures r.Ok? ==> saver.consulted == AskBlocks(old(saver.consulted), blocks)
  {
    hide TallyOf, DecidedAsHeard, AskedOnce, WasAsked, AskBlock, RawOf, RewriteContent;
    var rewritten := [];
    for b := 0 to |blocks|
      invariant Advanced(saver, true)
      invariant rewritten == RewriteBlocks(blocks[..b], saver.decisions)
      invariant BlocksDecided(blocks[..b], saver.decisions)
      invariant BlocksResolve(blocks[..b], calls)
      invariant saver.consulted == AskBlocks(old(saver.consulted), blocks[..b])
    {
      var block := blocks[b];
      assert blocks[..b + 1][..b] == blocks[..b];
      assert blocks[..b + 1] == blocks[..b] + [block];
      ghost var before := saver.decisions;
      if block.ToolResult? {
        if block.toolUseId == None || block.toolUseId.value !in calls {
          return Err("no matching tool_use block");
        }
        var changed := RewriteToolResult(block, calls[block.toolUseId.value], saver);
        if changed.Err? {
          return Err(changed.error);
        }
        LaterDecisionsKeepBlocks(blocks[..b], before, saver.decisions);
        block := changed.value;
      } else {
        NotAsked(saver.consulted, block);
      }
      rewritten := rewritten + [block];
    }
    assert blocks[..|blocks|] == blocks;
    return Ok(rewritten);
  }

  lemma LaterDecisionsKeepBlocks(blocks: seq<Block>, d: Decisions, later: Decisions)
    requires BlocksDecided(blocks, d) && Extends(d, later)
    ensures RewriteBlocks(blocks, later) == RewriteBlocks(blocks, d) && BlocksDecided(blocks, later)
  {
  }

  /** transformRequest for the megasaver arm: every tool result replaced by the decision made for its call. */
  method TransformRequest(request: Request, saver: Saver) returns (r: Result<Request, string>)
    requires saver.Valid()
    modifies saver
    ensures Advanced(saver, r.Ok?)
    ensures r.Ok? ==> Resolves(request)
    ensures r.Err? ==> saver.failed == 1 || !Resolves(request)
    ensures r.Ok? ==>
      r.value == RewriteRequest(request, saver.decisions) && MessagesDecided(request.messages, saver.decisions)
    ensures r.Ok? ==> saver.consulted == AskMessages(old(saver.consulted), request.messages)
  {
    hide RewriteBlocks, CallsOf, BlocksResolve, TallyOf, DecidedAsHeard, AskedOnce, WasAsked, AskBlocks;
    var calls := CollectToolCalls(request);
    forall id | id in calls
      ensures calls[id].toolUseId == id
    {
      CallsAreOfTheirId(request.messages, id);
    }
    var messages := [];
    for m := 0 to |request.messages|
      invariant Advanced(saver, true)
      invariant messages == RewriteMessages(request.messages[..m], saver.decisions)
      invariant MessagesDecided(request.messages[..m], saver.decisions)
      invariant saver.consulted == AskMessages(old(saver.consulted), request.messages[..m])
      invariant forall i :: 0 <= i < m && request.messages[i].Blocks? ==> BlocksResolve(request.messages[i].blocks, calls)
    {
      var message := request.messages[m];
      assert request.messages[..m + 1] == request.messages[..m] + [message];
      assert request.messages[..m + 1][..m] == request.messages[..m];
      ghost var before := saver.decisions;
      if message.Blocks? {
        var blocks := TransformBlocks(message.blocks, calls, saver);
        if blocks.Err? {
          return Err(blocks.error);
        }
        LaterDecisionsChangeNothing(request.messages[..m], before, saver.decisions);
        message := message.(blocks := blocks.value);
      }
      messages := messages + [message];
    }
    assert request.messages[..|request.messages|] == request.messages;
    return Ok(request.(messages := messages));
  }

  // ---------- Capping the generation ----------

  const GENERATION_CAP_TOKENS := 1

  function StripScope(b: SystemBlock): SystemBlock {
    if b.cacheControl.CacheControl? && b.cacheControl.scope == Some("global")
    then b.(cacheControl := b.cacheControl.(scope := None)) else b
  }

  function StripScopes(blocks: seq<SystemBlock>): seq<SystemBlock> {
    seq(|blocks|, i requires 0 <= i < |blocks| => StripScope(blocks[i]))
  }

  // Applied to both arms alike; only the sampling limit and the reach of a cache entry change.
  function Capped(r: Request): Request {
    r.(maxTokens := GENERATION_CAP_TOKENS,
       system := if r.system.Some? then Some(StripScopes(r.system.value)) else None)
  }

  /** Capping asks for one token and takes global reach from the cache entries of system blocks; the rest is as recorded. */
  lemma CappingIsMinimal(r: Request)
    ensures var c := Capped(r);
      && c == r.(maxTokens := 1, system := c.system) && (c.system.Some? <==> r.system.Some?)
      && (r.system.Some? ==>
            && |c.system.value| == |r.system.value|
            && forall i :: 0 <= i < |r.system.value| ==>
                 var before, after := r.system.value[i], c.system.value[i];
                 && after.json == before.json
                 && (after.cacheControl.CacheControl? ==> after.cacheControl.scope != Some("global"))
                 && (if before.cacheControl.CacheControl? && before.cacheControl.scope == Some("global")
                     then after.cacheControl == CacheControl(None, before.cacheControl.rest)
                     else after.cacheControl == before.cacheControl))
  {
  }

  method CapGeneration(r: Request) returns (capped: Option<Request>)
    ensures capped == if r.budgetTokens.Some? then None else Some(Capped(r))
  {
    if r.budgetTokens.Some? {
      return None;
    }
    var system := r.system;
    if system.Some? {
      var blocks := system.value;
      for b := 0 to |blocks|
        invariant |blocks| == |r.system.value|
        invariant forall i :: 0 <= i < |blocks| ==>
          blocks[i] == if i < b then StripScope(r.system.value[i]) else r.system.value[i]
      {
        if blocks[b].cacheControl.CacheControl? && blocks[b].cacheControl.scope == Some("global") {
          blocks := blocks[b := blocks[b].(cacheControl := blocks[b].cacheControl.(scope := None))];
        }
      }
      assert blocks == StripScopes(r.system.value);
      system := Some(blocks);
    }
    return Some(r.(maxTokens := GENERATION_CAP_TOKENS, system := system));
  }

  // ---------- The two arms ----------

  // The text the recording check looks at.
  function ToolResultText(content: Content): string {
    match content
    case Str(text) => text
    case Parts(parts) => JoinLines(TextsOf(parts))
    case OtherContent(_) => ""
  }

  // Some tool result already ends in the saver's footer.
  ghost predicate Contaminated(r: Request, looksCompressed: string -> bool) {
    exists m, b ::
      && 0 <= m < |r.messages| && r.messages[m].Blocks? && 0 <= b < |r.messages[m].blocks|
      && r.messages[m].blocks[b].ToolResult?
      && looksCompressed(ToolResultText(r.messages[m].blocks[b].content))
  }

  method IsContaminated(r: Request, looksCompressed: string -> bool) returns (yes: bool)
    ensures yes <==> Contaminated(r, looksCompressed)
  {
    for m := 0 to |r.messages|
      invariant forall i, b ::
        0 <= i < m && r.messages[i].Blocks? && 0 <= b < |r.messages[i].blocks| && r.messages[i].blocks[b].ToolResult?
        ==> !looksCompressed(ToolResultText(r.messages[i].blocks[b].content))
    {
      if r.messages[m].Blocks? {
        var blocks := r.messages[m].blocks;
        for b := 0 to |blocks|
          invariant forall i :: 0 <= i < b && blocks[i].ToolResult? ==> !looksCompressed(ToolResultText(blocks[i].content))
        {
          if blocks[b].ToolResult? && looksCompressed(ToolResultText(blocks[b].content)) {
            return true;
          }
        }
      }
    }
    return false;
  }

  datatype Arms = Arms(baseline: seq<Request>, megasaver: seq<Request>)

  // Both arms of the first n requests, the megasaver arm under the decisions made.
  ghost predicate ArmsOf(arms: Arms, requests: seq<Request>, d: Decisions) {
    && |arms.baseline| == |arms.megasaver| == |requests|
    && (forall i :: 0 <= i < |requests| ==>
          && arms.baseline[i] == Capped(requests[i])
          && arms.megasaver[i] == Capped(RewriteRequest(requests[i], d))
          && MessagesDecided(requests[i].messages, d))
  }

  lemma LaterDecisionsKeepArms(arms: Arms, requests: seq<Request>, d: Decisions, later: Decisions)
    requires ArmsOf(arms, requests, d) && Extends(d, later)
    ensures ArmsOf(arms, requests, later)
  {
    hide RewriteMessages;
    forall i | 0 <= i < |requests|
      ensures arms.megasaver[i] == Capped(RewriteRequest(requests[i], later)) && MessagesDecided(requests[i].messages, later)
    {
      LaterDecisionsChangeNothing(requests[i].messages, d, later);
    }
  }

  /** For any saver: it is asked about no tool call twice, and both arms are the recording, capped, the
      megasaver arm with every tool result rewritten by the one decision made for its call. */
  method PrepareBothArms(requests: seq<Request>, saver: Saver, looksCompressed: string -> bool)
    returns (r: Result<Arms, PrepareError>)
    requires saver.Valid() && saver.decisions == map[] && saver.consulted == []
    modifies saver
    ensures AskedOnce(saver.consulted)
    ensures r.Ok? ==>
      && ArmsOf(r.value, requests, saver.decisions)
      && saver.consulted == AskRequests(requests)
      && saver.heard + saver.answers == old(saver.answers)
      && DecidedAsHeard(saver.consulted, saver.heard, saver.decisions)
      && AnswersShow(requests, r.value.megasaver, saver.consulted, saver.heard)
      && saver.Tallied() == TallyOf(saver.consulted, saver.heard) && saver.violations == 0
      && saver.transformedBytes + saver.applied <= saver.originalBytes
    ensures r.Ok? ==> forall i :: 0 <= i < |requests| ==>
      !Contaminated(requests[i], looksCompressed) && requests[i].budgetTokens == None && Resolves(requests[i])
    ensures r.Err? ==>
      match r.error
      case AlreadyCompressed(i) => i < |requests| && Contaminated(requests[i], looksCompressed) && saver.consulted == []
      case BudgetTooLarge(i) => i < |requests| && requests[i].budgetTokens.Some?
      case SaverFailed(i, _) => i < |requests| && (saver.failed == 1 || !Resolves(requests[i]))
      case NotACompression(count) => count == saver.violations > 0
  {
    hide RewriteRequest, Capped, MessagesDecided, Contaminated, Resolves, TallyOf, AskMessages, WasAsked, AskedOnce, AnswersShow, ArmsOf,
      AskRequests;
    for i := 0 to |requests|
      invariant forall k :: 0 <= k < i ==> !Contaminated(requests[k], looksCompressed)
      modifies {}
    {
      var contaminated := IsContaminated(requests[i], looksCompressed);
      if contaminated {
        return Err(AlreadyCompressed(i));
      }
    }
    var arms := Arms([], []);
    NoArms(saver.decisions);
    NobodyIsAsked();
    for i := 0 to |requests|
      invariant saver.Valid()
      invariant ArmsOf(arms, requests[..i], saver.decisions)
      invariant saver.consulted == AskRequests(requests[..i])
      invariant saver.heard + saver.answers == old(saver.answers)
      invariant forall k :: 0 <= k < i ==> requests[k].budgetTokens == None && Resolves(requests[k])
    {
      AskOneMore(requests, i);
      var base := CapGeneration(requests[i]);
      if base == None {
        return Err(BudgetTooLarge(i));
      }
      ghost var before := saver.decisions;
      var transformed := TransformRequest(requests[i], saver);
      if transformed.Err? {
        return Err(SaverFailed(i, transformed.error));
      }
      LaterDecisionsKeepArms(arms, requests[..i], before, saver.decisions);
      RewritingKeepsBudget(requests[i], saver.decisions);
      var capped := CapGeneration(transformed.value);
      OneMoreArm(arms, requests, i, saver.decisions);
      arms := Arms(arms.baseline + [base.value], arms.megasaver + [capped.value]);
    }
    assert requests[..|requests|] == requests;
    CompressionsShrink(saver.consulted, saver.heard);
    if saver.violations > 0 {
      return Err(NotACompression(saver.violations));
    }
    MegasaverArmShowsTheAnswers(arms, requests, saver.decisions, saver.consulted, saver.heard);
    return Ok(arms);
  }

  // ---------- The megasaver arm carries the answers ----------

  predicate FirstText(parts: seq<Part>, p: int) {
    0 <= p < |parts| && IsText(parts[p]) && forall q :: 0 <= q < p ==> !IsText(parts[q])
  }

  // The same block, with exactly the text t: in place of a string, or of the first text part, no other text part left.
  ghost predicate Reads(before: Block, after: Block, t: string) {
    && before.ToolResult? && after.ToolResult? && after == before.(content := after.content)
    && match before.content
       case Str(_) => after.content == Str(t)
       case Parts(parts) =>
         exists p :: FirstText(parts, p)
           && after.content == Parts(parts[..p] + [TextPart(t)] + WithoutTexts(parts[p + 1..]))
       case OtherContent(_) => false
  }

  predicate HasText(content: Content) {
    content.Str? || (content.Parts? && exists p :: 0 <= p < |content.parts| && IsText(content.parts[p]))
  }

  // A tool result with text shows the answer that its call was given; every other block is the recorded one.
  ghost predicate Shows(before: Block, after: Block, consulted: seq<Asked>, heard: seq<Answer>)
  {
    if before.ToolResult? && before.toolUseId.Some? && HasText(before.content) then
      exists k :: 0 <= k < |consulted| && k < |heard| && consulted[k].toolUseId == before.toolUseId.value
        && match heard[k]
           case Replace(t) => Reads(before, after, t)
           case PassThrough => after == before
           case Throw(_) => false
    else after == before
  }

  ghost predicate BlocksShow(before: seq<Block>, after: seq<Block>, consulted: seq<Asked>, heard: seq<Answer>)
  {
    |after| == |before| && forall b :: 0 <= b < |before| ==> Shows(before[b], after[b], consulted, heard)
  }

  ghost predicate RequestShows(before: Request, after: Request, consulted: seq<Asked>, heard: seq<Answer>)
  {
    && |after.messages| == |before.messages|
    && forall m :: 0 <= m < |before.messages| ==>
         match before.messages[m]
         case OtherMessage(_) => after.messages[m] == before.messages[m]
         case Blocks(header, blocks) =>
           && after.messages[m].Blocks? && after.messages[m].header == header
           && BlocksShow(blocks, after.messages[m].blocks, consulted, heard)
  }

  lemma TextsOfLast(parts: seq<Part>)
    requires parts != []
    ensures TextsOf(parts) == TextsOf(parts[..|parts| - 1])
      + if IsText(parts[|parts| - 1]) then [parts[|parts| - 1].text] else []
  {
  }

  lemma {:induction false} NoTextsIff(parts: seq<Part>)
    ensures TextsOf(parts) == [] <==> forall p :: 0 <= p < |parts| ==> !IsText(parts[p])
  {
    hide IsText;
    if parts == [] {
      assert TextsOf(parts) == [];
    } else {
      var front := parts[..|parts| - 1];
      NoTextsIff(front);
      TextsOfLast(parts);
      assert forall p :: 0 <= p < |front| ==> front[p] == parts[p];
      hide TextsOf;
    }
  }

  lemma {:induction false} ReplacedAtFirst(parts: seq<Part>, t: string, p: nat)
    requires FirstText(parts, p)
    ensures ReplaceTexts(parts, t) == parts[..p] + [TextPart(t)] + WithoutTexts(parts[p + 1..])
  {
    if p > 0 {
      ReplacedAtFirst(parts[1..], t, p - 1);
      assert parts[1..][p..] == parts[p + 1..] && [parts[0]] + parts[1..][..p - 1] == parts[..p];
    }
  }

  lemma {:induction false} SomeTextIsFirst(parts: seq<Part>, p: nat)
    requires p < |parts| && IsText(parts[p])
    ensures exists q :: FirstText(parts, q)
  {
    if !FirstText(parts, p) {
      var q :| 0 <= q < p && IsText(parts[q]);
      SomeTextIsFirst(parts, q);
    }
  }

  lemma AsksIff(b: Block)
    ensures Asks(b) <==> b.ToolResult? && b.toolUseId.Some? && HasText(b.content)
  {
    if b.ToolResult? && b.content.Parts? {
      NoTextsIff(b.content.parts);
    }
  }

  lemma RewrittenReads(b: Block, t: string)
    requires Asks(b)
    ensures Reads(b, b.(content := RewriteContent(b.content, Some(t))), t)
  {
    AsksIff(b);
    if b.content.Parts? {
      NoTextsIff(b.content.parts);
      var p :| 0 <= p < |b.content.parts| && IsText(b.content.parts[p]);
      SomeTextIsFirst(b.content.parts, p);
      var q :| FirstText(b.content.parts, q);
      ReplacedAtFirst(b.content.parts, t, q);
    }
  }

  lemma RewrittenShows(b: Block, d: Decisions, consulted: seq<Asked>, heard: seq<Answer>)
    requires DecidedAsHeard(consulted, heard, d) && forall id :: id in d ==> WasAsked(consulted, id)
    requires Asks(b) ==> b.toolUseId.value in d
    ensures Shows(b, RewriteBlock(b, d), consulted, heard)
  {
    AsksIff(b);
    if Asks(b) {
      var k :| 0 <= k < |consulted| && consulted[k].toolUseId == b.toolUseId.value;
      if heard[k].Replace? {
        RewrittenReads(b, heard[k].text);
      }
    }
  }

  lemma RewrittenRequestShows(r: Request, d: Decisions, consulted: seq<Asked>, heard: seq<Answer>)
    requires DecidedAsHeard(consulted, heard, d) && forall id :: id in d ==> WasAsked(consulted, id)
    requires MessagesDecided(r.messages, d)
    ensures RequestShows(r, Capped(RewriteRequest(r, d)), consulted, heard)
  {
    hide Shows, DecidedAsHeard, WasAsked, Asks, RewriteBlock;
    forall m | 0 <= m < |r.messages| && r.messages[m].Blocks?
      ensures BlocksShow(r.messages[m].blocks, RewriteBlocks(r.messages[m].blocks, d), consulted, heard)
    {
      var blocks := r.messages[m].blocks;
      assert BlocksDecided(blocks, d);
      forall b | 0 <= b < |blocks| ensures Shows(blocks[b], RewriteBlock(blocks[b], d), consulted, heard) {
        RewrittenShows(blocks[b], d, consulted, heard);
      }
    }
  }

  ghost predicate AnswersShow(requests: seq<Request>, arm: seq<Request>, consulted: seq<Asked>, heard: seq<Answer>)
  {
    |arm| == |requests| && forall i :: 0 <= i < |requests| ==> RequestShows(requests[i], arm[i], consulted, heard)
  }

  /** In the megasaver arm every tool result with text reads as what the saver answered for its call. */
  lemma MegasaverArmShowsTheAnswers(arms: Arms, requests: seq<Request>, d: Decisions, consulted: seq<Asked>, heard: seq<Answer>)
    requires ArmsOf(arms, requests, d) && DecidedAsHeard(consulted, heard, d)
    requires forall id :: id in d ==> WasAsked(consulted, id)
    ensures AnswersShow(requests, arms.megasaver, consulted, heard)
  {
    hide DecidedAsHeard, WasAsked, RequestShows, MessagesDecided, RewriteRequest, Capped;
    forall i | 0 <= i < |requests| ensures RequestShows(requests[i], arms.megasaver[i], consulted, heard) {
      RewrittenRequestShows(requests[i], d, consulted, heard);
    }
  }

  lemma WithoutTextsCons(p: Part, rest: seq<Part>)
    ensures WithoutTexts([p] + rest) == (if IsText(p) then [] else [p]) + WithoutTexts(rest)
  {
    assert ([p] + rest)[1..] == rest;
  }

  /** What is not text: each part on its own, in the same order. */
  lemma {:induction false} WithoutTextsPartByPart(a: seq<Part>, b: seq<Part>)
    ensures WithoutTexts(a + b) == WithoutTexts(a) + WithoutTexts(b)
  {
    hide IsText;
    if a == [] {
      assert a + b == b;
      assert WithoutTexts(a) == [];
    } else {
      hide WithoutTexts;
      var rest := a[1..];
      WithoutTextsPartByPart(rest, b);
      WithoutTextsCons(a[0], rest);
      WithoutTextsCons(a[0], rest + b);
      assert a == [a[0]] + rest && a + b == [a[0]] + (rest + b);
    }
  }

  lemma WithoutTextsOfOne(p: Part)
    ensures WithoutTexts([p]) == if IsText(p) then [] else [p]
  {
    assert [p][1..] == [];
    assert WithoutTexts([]) == [];
  }

  // ---------- Who is asked about what ----------

  function BlocksOf(messages: seq<Message>): seq<Block> {
    if messages == [] then []
    else
      var last := messages[|messages| - 1];
      BlocksOf(messages[..|messages| - 1]) + if last.Blocks? then last.blocks else []
  }

  // All blocks of a recording in order of appearance.
  function AllBlocks(requests: seq<Request>): seq<Block> {
    if requests == [] then []
    else AllBlocks(requests[..|requests| - 1]) + BlocksOf(requests[|requests| - 1].messages)
  }

  lemma {:induction false} AskInTwo(asked: seq<Asked>, a: seq<Block>, b: seq<Block>)
    ensures AskBlocks(asked, a + b) == AskBlocks(AskBlocks(asked, a), b)
  {
    hide AskBlock;
    if b == [] {
      assert a + b == a;
    } else {
      AskInTwo(asked, a, b[..|b| - 1]);
      assert (a + b)[..|a + b| - 1] == a + b[..|b| - 1];
    }
  }

  lemma {:induction false} AskMessagesIsAskBlocks(asked: seq<Asked>, messages: seq<Message>)
    ensures AskMessages(asked, messages) == AskBlocks(asked, BlocksOf(messages))
  {
    hide AskBlock;
    if messages != [] {
      var n := |messages| - 1;
      AskMessagesIsAskBlocks(asked, messages[..n]);
      AskInTwo(asked, BlocksOf(messages[..n]), if messages[n].Blocks? then messages[n].blocks else []);
    }
  }

  lemma {:induction false} AskRequestsIsAskBlocks(requests: seq<Request>)
    ensures AskRequests(requests) == AskBlocks([], AllBlocks(requests))
  {
    hide AskBlock, AskMessages, BlocksOf;
    if requests != [] {
      var n := |requests| - 1;
      AskRequestsIsAskBlocks(requests[..n]);
      AskMessagesIsAskBlocks(AskRequests(requests[..n]), requests[n].messages);
      AskInTwo([], AllBlocks(requests[..n]), BlocksOf(requests[n].messages));
    }
  }

  // The saver has to be asked about block j, for the first time for its id.
  ghost predicate FirstAsk(blocks: seq<Block>, j: int, id: string) {
    0 <= j < |blocks| && Wants(blocks[j], id) && forall i :: 0 <= i < j ==> !Wants(blocks[i], id)
  }

  predicate Wants(b: Block, id: string) {
    b.ToolResult? && b.toolUseId == Some(id) && HasText(b.content)
  }

  lemma FirstAskSnoc(blocks: seq<Block>, j: int, id: string)
    requires blocks != []
    ensures var n := |blocks| - 1;
      FirstAsk(blocks, j, id) <==>
        || FirstAsk(blocks[..n], j, id)
        || (j == n && Wants(blocks[n], id) && forall i :: 0 <= i < n ==> !Wants(blocks[i], id))
  {
    hide Wants;
    var n := |blocks| - 1;
    assert forall i :: 0 <= i < n ==> blocks[..n][i] == blocks[i];
  }

  ghost predicate SomeWants(blocks: seq<Block>, id: string) {
    exists j :: 0 <= j < |blocks| && Wants(blocks[j], id)
  }

  // The call was first asked about at one of the blocks, and its text was shown.
  ghost predicate AskedAtFirst(blocks: seq<Block>, a: Asked) {
    exists j :: FirstAsk(blocks, j, a.toolUseId) && RawOf(blocks[j].content) == Some(a.raw)
  }

  lemma AskOne(asked: seq<Asked>, b: Block)
    ensures AskBlock(asked, b) == asked
      || (b.toolUseId.Some? && Wants(b, b.toolUseId.value) && !WasAsked(asked, b.toolUseId.value) && RawOf(b.content).Some?
          && AskBlock(asked, b) == asked + [Asked(b.toolUseId.value, RawOf(b.content).value)])
    ensures forall id :: WasAsked(AskBlock(asked, b), id) <==> WasAsked(asked, id) || Wants(b, id)
  {
    AsksIff(b);
    hide HasText, RawOf;
    if AskBlock(asked, b) != asked {
      var a := AskBlock(asked, b)[|asked|];
      forall id ensures WasAsked(asked + [a], id) <==> WasAsked(asked, id) || a.toolUseId == id {
        if k :| 0 <= k < |asked| && asked[k].toolUseId == id {
          assert (asked + [a])[k].toolUseId == id;
        }
        assert (asked + [a])[|asked|] == a;
      }
    }
  }

  lemma WantsSnoc(blocks: seq<Block>, id: string)
    requires blocks != []
    ensures SomeWants(blocks, id) <==> SomeWants(blocks[..|blocks| - 1], id) || Wants(blocks[|blocks| - 1], id)
  {
    hide Wants;
    var n := |blocks| - 1;
    if j :| 0 <= j < n && Wants(blocks[..n][j], id) {
      assert Wants(blocks[j], id);
    }
    if j :| 0 <= j < |blocks| && Wants(blocks[j], id) {
      assert j < n ==> Wants(blocks[..n][j], id);
    }
  }

  lemma {:induction false} WantedAreAsked(blocks: seq<Block>, id: string)
    ensures WasAsked(AskBlocks([], blocks), id) <==> SomeWants(blocks, id)
  {
    hide AskBlock, Wants, SomeWants;
    if blocks == [] {
      NobodyWants(id);
    } else {
      var n := |blocks| - 1;
      WantedAreAsked(blocks[..n], id);
      AskOne(AskBlocks([], blocks[..n]), blocks[n]);
      WantsSnoc(blocks, id);
    }
  }

  lemma NobodyWants(id: string)
    ensures !SomeWants([], id)
  {
  }

  lemma {:induction false} AskedAreFirst(blocks: seq<Block>, k: nat)
    requires k < |AskBlocks([], blocks)|
    ensures AskedAtFirst(blocks, AskBlocks([], blocks)[k])
  {
    var n := |blocks| - 1;
    var earlier := AskBlocks([], blocks[..n]);
    AskOne(earlier, blocks[n]);
    hide AskBlock, RawOf;
    if k < |earlier| {
      AskedAreFirst(blocks[..n], k);
      var j :| FirstAsk(blocks[..n], j, earlier[k].toolUseId) && RawOf(blocks[..n][j].content) == Some(earlier[k].raw);
      FirstAskSnoc(blocks, j, earlier[k].toolUseId);
    } else {
      var id := blocks[n].toolUseId.value;
      WantedAreAsked(blocks[..n], id);
      hide Wants;
      assert forall i :: 0 <= i < n ==> blocks[..n][i] == blocks[i];
      assert FirstAsk(blocks, n, id);
    }
  }

  /** The saver is asked about exactly the ids that have a tool result with text, and is shown the text of the first. */
  lemma AskedByPosition(requests: seq<Request>, id: string)
    ensures WasAsked(AskRequests(requests), id) <==> SomeWants(AllBlocks(requests), id)
    ensures forall a :: a in AskRequests(requests) ==> AskedAtFirst(AllBlocks(requests), a)
  {
    AskRequestsIsAskBlocks(requests);
    hide AskRequests, AllBlocks, AskBlocks, WasAsked, SomeWants, AskedAtFirst;
    WantedAreAsked(AllBlocks(requests), id);
    forall k | 0 <= k < |AskRequests(requests)| ensures AskedAtFirst(AllBlocks(requests), AskRequests(requests)[k]) {
      AskedAreFirst(AllBlocks(requests), k);
    }
  }

  lemma OneMoreArm(arms: Arms, requests: seq<Request>, i: nat, d: Decisions)
    requires i < |requests| && ArmsOf(arms, requests[..i], d) && MessagesDecided(requests[i].messages, d)
    ensures ArmsOf(Arms(arms.baseline + [Capped(requests[i])], arms.megasaver + [Capped(RewriteRequest(requests[i], d))]),
                   requests[..i + 1], d)
  {
    hide Capped, RewriteRequest, MessagesDecided;
  }

  lemma NoArms(d: Decisions)
    ensures ArmsOf(Arms([], []), [], d)
  {
  }

  lemma NobodyIsAsked()
    ensures AskRequests([]) == []
  {
  }

  lemma AskOneMore(requests: seq<Request>, i: nat)
    requires i < |requests|
    ensures AskRequests(requests[..i + 1]) == AskMessages(AskRequests(requests[..i]), requests[i].messages)
  {
    hide AskMessages;
    assert requests[..i + 1][..i] == requests[..i];
  }

  lemma RewritingKeepsBudget(r: Request, d: Decisions)
    ensures RewriteRequest(r, d).budgetTokens == r.budgetTokens
  {
  }

  /** A growing conversation stays one in the megasaver arm, so its cache stays warm. */
  lemma MegasaverArmGrowsWithTheRecording(arms: Arms, requests: seq<Request>, d: Decisions, i: nat, j: nat)
    requires ArmsOf(arms, requests, d) && i < |requests| && j < |requests|
    requires requests[i].messages <= requests[j].messages
    ensures arms.megasaver[i].messages <= arms.megasaver[j].messages
  {
    RewritingKeepsPrefixes(requests[i], requests[j], d);
  }

  /** The arms differ in the contents of tool results and in nothing else. */
  lemma ArmsDifferOnlyInToolResults(arms: Arms, requests: seq<Request>, d: Decisions, i: nat)
    requires ArmsOf(arms, requests, d) && i < |requests|
    ensures Erase(arms.megasaver[i]) == Erase(arms.baseline[i])
  {
    RewritingTouchesOnlyToolResults(requests[i], d);
  }
}
