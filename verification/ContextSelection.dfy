/** Choosing the blocks of a context pack (context-pruner/src/select.ts). */
module ContextSelection {
  import opened Prelude

  // ---------- Blocks ----------

  // A scored candidate: the block, its score, and the two factors that force it into a pack.
  datatype Block = Block(
    id: int,
    filePath: string,
    startLine: int,
    endLine: int,
    name: Option<string>,
    exports: seq<string>,
    calls: seq<string>,
    calledBy: seq<string>,
    resolvedCalls: Option<seq<string>>,
    resolvedCalledBy: Option<seq<string>>,
    userMention: real,
    testFailure: real,
    score: real)

  const DEFAULT_LIMIT := 8
  const TOKENS_PER_LINE := 12
  const MIN_RELEVANCE_SCORE := 0.05

  // Block ids are drawn fresh when a block is indexed.
  ghost predicate DistinctIds(blocks: seq<Block>) {
    forall i, j :: 0 <= i < j < |blocks| ==> blocks[i].id != blocks[j].id
  }

  function Tokens(b: Block): int {
    Max(1, (b.endLine - b.startLine + 1) * TOKENS_PER_LINE)
  }

  function TotalTokens(blocks: seq<Block>): int {
    if blocks == [] then 0 else TotalTokens(blocks[..|blocks| - 1]) + Tokens(blocks[|blocks| - 1])
  }

  predicate Forced(b: Block) {
    b.userMention > 0.0 || b.testFailure > 0.0
  }

  predicate Relevant(b: Block) {
    b.score >= MIN_RELEVANCE_SCORE
  }

  // ---------- Resolving names and edges ----------

  predicate Answers(b: Block, name: string) {
    (b.name == Some(name) && name != "") || name in b.exports
  }

  predicate IsFqn(b: Block, fqn: string) {
    b.name.Some? && fqn == b.filePath + "#" + b.name.value
  }

  // The first candidate, in score order, that answers to the name.
  function FirstNamed(blocks: seq<Block>, name: string): Option<Block> {
    if blocks == [] then None
    else
      var earlier := FirstNamed(blocks[..|blocks| - 1], name);
      if earlier.Some? then earlier
      else if Answers(blocks[|blocks| - 1], name) then Some(blocks[|blocks| - 1]) else None
  }

  function FirstFqn(blocks: seq<Block>, fqn: string): Option<Block> {
    if blocks == [] then None
    else
      var earlier := FirstFqn(blocks[..|blocks| - 1], fqn);
      if earlier.Some? then earlier
      else if IsFqn(blocks[|blocks| - 1], fqn) then Some(blocks[|blocks| - 1]) else None
  }

  lemma {:induction false} FirstNamedIsACandidate(blocks: seq<Block>, name: string)
    ensures FirstNamed(blocks, name).Some? ==> FirstNamed(blocks, name).value in blocks
  {
    if blocks != [] {
      FirstNamedIsACandidate(blocks[..|blocks| - 1], name);
    }
  }

  lemma {:induction false} FirstFqnIsACandidate(blocks: seq<Block>, fqn: string)
    ensures FirstFqn(blocks, fqn).Some? ==> FirstFqn(blocks, fqn).value in blocks
  {
    if blocks != [] {
      FirstFqnIsACandidate(blocks[..|blocks| - 1], fqn);
    }
  }

  // What follows the first '#', or the whole string when there is none.
  function NameFromFqn(fqn: string): string {
    AfterHash(fqn, fqn)
  }

  function AfterHash(s: string, whole: string): string {
    if s == "" then whole else if s[0] == '#' then s[1..] else AfterHash(s[1..], whole)
  }

  function ResolveEdge(blocks: seq<Block>, fqn: string): Option<Block> {
    var precise := FirstFqn(blocks, fqn);
    if precise.Some? then precise else FirstNamed(blocks, NameFromFqn(fqn))
  }

  function ResolveAll(blocks: seq<Block>, edges: seq<string>): seq<Block> {
    if edges == [] then []
    else
      var rest := ResolveAll(blocks, edges[..|edges| - 1]);
      var last := ResolveEdge(blocks, edges[|edges| - 1]);
      if last.Some? then rest + [last.value] else rest
  }

  function LookUpAll(blocks: seq<Block>, names: seq<string>): seq<Block> {
    if names == [] then []
    else
      var rest := LookUpAll(blocks, names[..|names| - 1]);
      var last := FirstNamed(blocks, names[|names| - 1]);
      if last.Some? then rest + [last.value] else rest
  }

  function CalleesOf(blocks: seq<Block>, b: Block): seq<Block> {
    if b.resolvedCalls.Some? then ResolveAll(blocks, b.resolvedCalls.value) else LookUpAll(blocks, b.calls)
  }

  function CallersOf(blocks: seq<Block>, b: Block): seq<Block> {
    if b.resolvedCalledBy.Some? then ResolveAll(blocks, b.resolvedCalledBy.value) else LookUpAll(blocks, b.calledBy)
  }

  lemma {:induction false} ResolvedAreCandidates(blocks: seq<Block>, edges: seq<string>, b: Block)
    requires b in ResolveAll(blocks, edges)
    ensures b in blocks
  {
    var last := edges[|edges| - 1];
    FirstFqnIsACandidate(blocks, last);
    FirstNamedIsACandidate(blocks, NameFromFqn(last));
    if b in ResolveAll(blocks, edges[..|edges| - 1]) {
      ResolvedAreCandidates(blocks, edges[..|edges| - 1], b);
    }
  }

  lemma {:induction false} LookedUpAreCandidates(blocks: seq<Block>, names: seq<string>, b: Block)
    requires b in LookUpAll(blocks, names)
    ensures b in blocks
  {
    FirstNamedIsACandidate(blocks, names[|names| - 1]);
    if b in LookUpAll(blocks, names[..|names| - 1]) {
      LookedUpAreCandidates(blocks, names[..|names| - 1], b);
    }
  }

  /** An edge never leads out of the candidates. */
  lemma EdgesStayInside(blocks: seq<Block>, b: Block, target: Block)
    ensures target in CalleesOf(blocks, b) ==> target in blocks
    ensures target in CallersOf(blocks, b) ==> target in blocks
  {
    if target in CalleesOf(blocks, b) {
      if b.resolvedCalls.Some? {
        ResolvedAreCandidates(blocks, b.resolvedCalls.value, target);
      } else {
        LookedUpAreCandidates(blocks, b.calls, target);
      }
    }
    if target in CallersOf(blocks, b) {
      if b.resolvedCalledBy.Some? {
        ResolvedAreCandidates(blocks, b.resolvedCalledBy.value, target);
      } else {
        LookedUpAreCandidates(blocks, b.calledBy, target);
      }
    }
  }

  // ---------- Where edges lead, by position ----------

  // The name that an edge spells after its first '#'; an edge without one is a name itself.
  ghost predicate Spells(fqn: string, name: string) {
    || (fqn == name && '#' !in fqn)
    || exists path: string :: '#' !in path && fqn == path + "#" + name
  }

  ghost predicate FirstToAnswer(blocks: seq<Block>, name: string, k: int) {
    0 <= k < |blocks| && Answers(blocks[k], name) && forall j :: 0 <= j < k ==> !Answers(blocks[j], name)
  }

  ghost predicate FirstQualified(blocks: seq<Block>, fqn: string, k: int) {
    0 <= k < |blocks| && IsFqn(blocks[k], fqn) && forall j :: 0 <= j < k ==> !IsFqn(blocks[j], fqn)
  }

  // The first candidate whose path and name spell the edge; when there is none, the first that answers to the name.
  ghost predicate LeadsTo(blocks: seq<Block>, fqn: string, k: int) {
    || FirstQualified(blocks, fqn, k)
    || ((forall j :: 0 <= j < |blocks| ==> !IsFqn(blocks[j], fqn))
        && exists name: string :: Spells(fqn, name) && FirstToAnswer(blocks, name, k))
  }

  lemma {:induction false} AfterHashSkips(path: string, name: string, whole: string)
    requires '#' !in path
    ensures AfterHash(path + "#" + name, whole) == name && AfterHash(path, whole) == whole
  {
    if path == "" {
      assert path + "#" + name == "#" + name && ("#" + name)[1..] == name;
    } else {
      AfterHashSkips(path[1..], name, whole);
      assert (path + "#" + name)[1..] == path[1..] + "#" + name;
    }
  }

  lemma {:induction false} HashSplits(s: string)
    requires '#' in s
    ensures exists path: string, name: string :: '#' !in path && s == path + "#" + name
  {
    if s[0] == '#' {
      assert s == "" + "#" + s[1..];
    } else {
      HashSplits(s[1..]);
      var path: string, name: string :| '#' !in path && s[1..] == path + "#" + name;
      assert s == ([s[0]] + path) + "#" + name;
    }
  }

  lemma SpellsOneName(fqn: string, name: string)
    ensures Spells(fqn, name) <==> name == NameFromFqn(fqn)
  {
    if '#' !in fqn {
      AfterHashSkips(fqn, "", fqn);
      assert forall path: string :: '#' in path + "#" + name;
    } else {
      HashSplits(fqn);
      var path: string, rest: string :| '#' !in path && fqn == path + "#" + rest;
      AfterHashSkips(path, rest, fqn);
      if other: string :| '#' !in other && fqn == other + "#" + name {
        AfterHashSkips(other, name, fqn);
      }
    }
  }

  lemma {:induction false} FirstNamedByPosition(blocks: seq<Block>, name: string)
    ensures FirstNamed(blocks, name) == None <==> forall j :: 0 <= j < |blocks| ==> !Answers(blocks[j], name)
    ensures forall k :: FirstToAnswer(blocks, name, k) ==> FirstNamed(blocks, name) == Some(blocks[k])
    ensures FirstNamed(blocks, name).Some? ==> exists k :: FirstToAnswer(blocks, name, k)
  {
    if blocks != [] {
      var n := |blocks| - 1;
      hide Answers;
      FirstNamedByPosition(blocks[..n], name);
      if FirstNamed(blocks[..n], name).Some? {
        var k :| FirstToAnswer(blocks[..n], name, k);
        assert FirstToAnswer(blocks, name, k);
      } else if Answers(blocks[n], name) {
        assert forall j :: 0 <= j < n ==> blocks[..n][j] == blocks[j];
        assert FirstToAnswer(blocks, name, n);
      }
    }
  }

  lemma {:induction false} FirstFqnByPosition(blocks: seq<Block>, fqn: string)
    ensures FirstFqn(blocks, fqn) == None <==> forall j :: 0 <= j < |blocks| ==> !IsFqn(blocks[j], fqn)
    ensures forall k :: FirstQualified(blocks, fqn, k) ==> FirstFqn(blocks, fqn) == Some(blocks[k])
    ensures FirstFqn(blocks, fqn).Some? ==> exists k :: FirstQualified(blocks, fqn, k)
  {
    if blocks != [] {
      var n := |blocks| - 1;
      hide IsFqn;
      FirstFqnByPosition(blocks[..n], fqn);
      if FirstFqn(blocks[..n], fqn).Some? {
        var k :| FirstQualified(blocks[..n], fqn, k);
        assert FirstQualified(blocks, fqn, k);
      } else if IsFqn(blocks[n], fqn) {
        assert forall j :: 0 <= j < n ==> blocks[..n][j] == blocks[j];
        assert FirstQualified(blocks, fqn, n);
      }
    }
  }

  /** A resolved edge leads to the qualified definition when a candidate has it, and to the first candidate with the
      bare name otherwise. */
  lemma EdgeLeadsByPosition(blocks: seq<Block>, fqn: string)
    ensures forall k :: LeadsTo(blocks, fqn, k) ==> 0 <= k < |blocks| && ResolveEdge(blocks, fqn) == Some(blocks[k])
    ensures ResolveEdge(blocks, fqn).Some? ==> exists k :: LeadsTo(blocks, fqn, k)
  {
    var name := NameFromFqn(fqn);
    FirstFqnByPosition(blocks, fqn);
    FirstNamedByPosition(blocks, name);
    forall other: string ensures Spells(fqn, other) <==> other == name {
      SpellsOneName(fqn, other);
    }
    hide Answers, IsFqn, Spells, FirstFqn, FirstNamed, NameFromFqn;
    if ResolveEdge(blocks, fqn).Some? {
      if FirstFqn(blocks, fqn).Some? {
        var k :| FirstQualified(blocks, fqn, k);
        assert LeadsTo(blocks, fqn, k);
      } else {
        var k :| FirstToAnswer(blocks, name, k);
        assert LeadsTo(blocks, fqn, k);
      }
    }
  }

  // The i-th edge of a list leads to candidate k, as a resolved edge or as a name.
  ghost predicate EdgeLeads(blocks: seq<Block>, edges: seq<string>, resolved: bool, i: int, k: int) {
    0 <= i < |edges| && if resolved then LeadsTo(blocks, edges[i], k) else FirstToAnswer(blocks, edges[i], k)
  }

  ghost predicate SomeEdgeLeads(blocks: seq<Block>, edges: seq<string>, resolved: bool, target: Block) {
    exists i, k :: EdgeLeads(blocks, edges, resolved, i, k) && 0 <= k < |blocks| && target == blocks[k]
  }

  lemma OneMoreEdge(blocks: seq<Block>, edges: seq<string>, resolved: bool, target: Block)
    requires edges != []
    ensures SomeEdgeLeads(blocks, edges, resolved, target) <==>
      || SomeEdgeLeads(blocks, edges[..|edges| - 1], resolved, target)
      || exists k :: 0 <= k < |blocks| && EdgeLeads(blocks, edges, resolved, |edges| - 1, k) && target == blocks[k]
  {
    hide LeadsTo, FirstToAnswer;
    var front := edges[..|edges| - 1];
    if i, k :| EdgeLeads(blocks, edges, resolved, i, k) && 0 <= k < |blocks| && target == blocks[k] {
      assert i < |front| ==> EdgeLeads(blocks, front, resolved, i, k);
    }
    if i, k :| EdgeLeads(blocks, front, resolved, i, k) && 0 <= k < |blocks| && target == blocks[k] {
      assert EdgeLeads(blocks, edges, resolved, i, k);
    }
  }

  lemma {:induction false} ResolvedByPosition(blocks: seq<Block>, edges: seq<string>, target: Block)
    ensures target in ResolveAll(blocks, edges) <==> SomeEdgeLeads(blocks, edges, true, target)
  {
    if edges != [] {
      ResolvedByPosition(blocks, edges[..|edges| - 1], target);
      EdgeLeadsByPosition(blocks, edges[|edges| - 1]);
      hide LeadsTo, ResolveEdge;
      OneMoreEdge(blocks, edges, true, target);
      hide SomeEdgeLeads;
    }
  }

  lemma {:induction false} LookedUpByPosition(blocks: seq<Block>, names: seq<string>, target: Block)
    ensures target in LookUpAll(blocks, names) <==> SomeEdgeLeads(blocks, names, false, target)
  {
    if names != [] {
      LookedUpByPosition(blocks, names[..|names| - 1], target);
      FirstNamedByPosition(blocks, names[|names| - 1]);
      hide FirstNamed;
      OneMoreEdge(blocks, names, false, target);
      hide SomeEdgeLeads, Answers;
    }
  }

  /** The walks follow exactly these edges: a block's resolved ones when it has them, its names otherwise. */
  lemma EdgesByPosition(blocks: seq<Block>, b: Block, target: Block)
    ensures target in CalleesOf(blocks, b) <==>
      SomeEdgeLeads(blocks, b.resolvedCalls.GetOr(b.calls), b.resolvedCalls.Some?, target)
    ensures target in CallersOf(blocks, b) <==>
      SomeEdgeLeads(blocks, b.resolvedCalledBy.GetOr(b.calledBy), b.resolvedCalledBy.Some?, target)
  {
    hide SomeEdgeLeads, ResolveAll, LookUpAll;
    if b.resolvedCalls.Some? {
      ResolvedByPosition(blocks, b.resolvedCalls.value, target);
    } else {
      LookedUpByPosition(blocks, b.calls, target);
    }
    if b.resolvedCalledBy.Some? {
      ResolvedByPosition(blocks, b.resolvedCalledBy.value, target);
    } else {
      LookedUpByPosition(blocks, b.calledBy, target);
    }
  }

  lemma FrontOfSum(front: seq<string>, back: seq<string>)
    requires back != []
    ensures (front + back)[..|front + back| - 1] == front + back[..|back| - 1]
    ensures (front + back)[|front + back| - 1] == back[|back| - 1]
  {
  }

  /** The targets come in the order of the edges. */
  lemma {:induction false} TargetsInEdgeOrder(blocks: seq<Block>, front: seq<string>, back: seq<string>)
    ensures ResolveAll(blocks, front + back) == ResolveAll(blocks, front) + ResolveAll(blocks, back)
    ensures LookUpAll(blocks, front + back) == LookUpAll(blocks, front) + LookUpAll(blocks, back)
  {
    hide ResolveEdge, FirstNamed;
    if back == [] {
      assert front + back == front;
    } else {
      TargetsInEdgeOrder(blocks, front, back[..|back| - 1]);
      FrontOfSum(front, back);
    }
  }

  // ---------- The two maps the source builds ----------

  ghost predicate IndexesNames(byName: map<string, Block>, blocks: seq<Block>) {
    forall n: string :: FirstNamed(blocks, n) == if n in byName then Some(byName[n]) else None
  }

  ghost predicate IndexesFqns(byFqn: map<string, Block>, blocks: seq<Block>) {
    forall f: string :: FirstFqn(blocks, f) == if f in byFqn then Some(byFqn[f]) else None
  }

  method BuildIndexes(blocks: seq<Block>) returns (byName: map<string, Block>, byFqn: map<string, Block>)
    ensures IndexesNames(byName, blocks) && IndexesFqns(byFqn, blocks)
  {
    byName, byFqn := map[], map[];
    for i := 0 to |blocks|
      invariant IndexesNames(byName, blocks[..i])
      invariant IndexesFqns(byFqn, blocks[..i])
    {
      var b := blocks[i];
      assert blocks[..i + 1][..i] == blocks[..i];
      ghost var before := byName;
      if b.name.Some? && b.name.value != "" && b.name.value !in byName {
        byName := byName[b.name.value := b];
      }
      for e := 0 to |b.exports|
        invariant forall n: string :: n in byName <==>
          n in before || (b.name == Some(n) && n != "") || n in b.exports[..e]
        invariant forall n: string :: n in byName ==> byName[n] == if n in before then before[n] else b
      {
        assert b.exports[..e + 1] == b.exports[..e] + [b.exports[e]];
        if b.exports[e] !in byName {
          byName := byName[b.exports[e] := b];
        }
      }
      assert b.exports[..|b.exports|] == b.exports;
      if b.name.Some? {
        var fqn := b.filePath + "#" + b.name.value;
        if fqn !in byFqn {
          byFqn := byFqn[fqn := b];
        }
      }
    }
    assert blocks[..|blocks|] == blocks;
  }

  method EdgeTargets(blocks: seq<Block>, edges: seq<string>, byName: map<string, Block>, byFqn: map<string, Block>)
    returns (targets: seq<Block>)
    requires IndexesNames(byName, blocks) && IndexesFqns(byFqn, blocks)
    ensures targets == ResolveAll(blocks, edges)
  {
    targets := [];
    for i := 0 to |edges|
      invariant targets == ResolveAll(blocks, edges[..i])
    {
      assert edges[..i + 1][..i] == edges[..i];
      var fqn := edges[i];
      if fqn in byFqn {
        targets := targets + [byFqn[fqn]];
      } else if NameFromFqn(fqn) in byName {
        targets := targets + [byName[NameFromFqn(fqn)]];
      }
    }
    assert edges[..|edges|] == edges;
  }

  method NamedTargets(blocks: seq<Block>, names: seq<string>, byName: map<string, Block>) returns (targets: seq<Block>)
    requires IndexesNames(byName, blocks)
    ensures targets == LookUpAll(blocks, names)
  {
    targets := [];
    for i := 0 to |names|
      invariant targets == LookUpAll(blocks, names[..i])
    {
      assert names[..i + 1][..i] == names[..i];
      if names[i] in byName {
        targets := targets + [byName[names[i]]];
      }
    }
    assert names[..|names|] == names;
  }

  // ---------- The budget ----------

  datatype Budget = Budget(limit: int, maxTokens: Option<int>)

  function BudgetOf(limit: Option<int>, maxTokens: Option<int>): Budget {
    Budget(limit.GetOr(DEFAULT_LIMIT), maxTokens)
  }

  // The block can still be added to a pack without force.
  predicate Fits(included: seq<Block>, budget: Budget, b: Block) {
    && |included| < budget.limit
    && (budget.maxTokens.Some? ==> TotalTokens(included) + Tokens(b) <= budget.maxTokens.value)
  }

  // The pack is no larger than the budget or than the forced part of it.
  predicate WithinBudget(included: seq<Block>, budget: Budget, forced: seq<Block>) {
    && |included| <= Max(budget.limit, |forced|)
    && (budget.maxTokens.Some? ==> TotalTokens(included) <= Max(budget.maxTokens.value, TotalTokens(forced)))
  }

  lemma AddedTokens(included: seq<Block>, b: Block)
    ensures TotalTokens(included + [b]) == TotalTokens(included) + Tokens(b)
    ensures Tokens(b) >= 1
  {
    assert (included + [b])[..|included|] == included;
  }

  // A fuller pack has no more room.
  lemma RoomOnlyShrinks(included: seq<Block>, added: Block, budget: Budget, b: Block)
    requires !Fits(included, budget, b)
    ensures !Fits(included + [added], budget, b)
  {
    AddedTokens(included, added);
  }

  lemma UnforcedStaysWithin(included: seq<Block>, budget: Budget, forced: seq<Block>, b: Block)
    requires WithinBudget(included, budget, forced) && Fits(included, budget, b)
    ensures WithinBudget(included + [b], budget, forced)
  {
    AddedTokens(included, b);
  }

  // The variables that `add` closes over in both selections.
  class Pack {
    const budget: Budget
    var included: seq<Block>
    var includedIds: set<int>
    var usedTokens: int

    ghost predicate Valid(blocks: seq<Block>)
      reads this
    {
      && (forall b :: b in included ==> b in blocks)
      && DistinctIds(included)
      && includedIds == (set b | b in included :: b.id)
      && usedTokens == TotalTokens(included)
    }

    constructor (budget: Budget)
      ensures this.budget == budget && included == [] && Valid([])
    {
      this.budget := budget;
      included, includedIds, usedTokens := [], {}, 0;
    }

    method Add(ghost blocks: seq<Block>, b: Block, force: bool) returns (ok: bool)
      requires Valid(blocks) && DistinctIds(blocks) && b in blocks
      modifies this
      ensures Valid(blocks)
      ensures ok <==> b in old(included) || force || Fits(old(included), budget, b)
      ensures included == if b in old(included) || !ok then old(included) else old(included) + [b]
    {
      assert b.id in includedIds <==> b in included;
      if b.id in includedIds {
        return true;
      }
      var cost := Tokens(b);
      if !force {
        if |included| >= budget.limit {
          return false;
        }
        if budget.maxTokens.Some? && usedTokens + cost > budget.maxTokens.value {
          return false;
        }
      }
      AddedTokens(included, b);
      included := included + [b];
      includedIds := includedIds + {b.id};
      usedTokens := usedTokens + cost;
      return true;
    }
  }

  // The blocks that wait in a queue.
  function Queued(queue: seq<Block>): set<Block> {
    set b | b in queue
  }

  // ---------- Taking what fits, in order ----------

  // i comes after the first p of the ranks and before the others.
  predicate Place(rank: seq<nat>, i: int, p: int) {
    0 <= p <= |rank| && (p > 0 ==> rank[p - 1] < i) && (p < |rank| ==> i < rank[p])
  }

  // The r-th taken had room behind the earlier ones.
  ghost predicate Takes(list: seq<Block>, n: nat, wanted: Block -> bool, budget: Budget, base: seq<Block>,
                        chosen: seq<Block>, rank: seq<nat>, r: int)
    requires n <= |list| && |rank| == |chosen| && 0 <= r < |rank|
  {
    && rank[r] < n && list[rank[r]] == chosen[r] && wanted(chosen[r])
    && Fits(base + chosen[..r], budget, chosen[r]) && (r > 0 ==> rank[r - 1] < rank[r])
  }

  // What is wanted and was not taken had no room behind what was taken before its turn.
  ghost predicate PassesOver(list: seq<Block>, wanted: Block -> bool, budget: Budget, base: seq<Block>,
                             chosen: seq<Block>, rank: seq<nat>, i: int, p: int)
    requires 0 <= i < |list| && |rank| == |chosen|
  {
    wanted(list[i]) && list[i] !in base && list[i] !in chosen && Place(rank, i, p) ==>
      !Fits(base + chosen[..p], budget, list[i])
  }

  // Of the first n of the list the wanted ones are taken in order, each when it fits behind those before it.
  ghost predicate TakenInOrder(list: seq<Block>, n: nat, wanted: Block -> bool, budget: Budget, base: seq<Block>,
                               chosen: seq<Block>, rank: seq<nat>) {
    && n <= |list| && |rank| == |chosen|
    && (forall r :: 0 <= r < |rank| ==> Takes(list, n, wanted, budget, base, chosen, rank, r))
    && (forall i, p :: 0 <= i < n && 0 <= p <= |rank| ==> PassesOver(list, wanted, budget, base, chosen, rank, i, p))
  }

  lemma NothingTaken(list: seq<Block>, wanted: Block -> bool, budget: Budget, base: seq<Block>)
    ensures TakenInOrder(list, 0, wanted, budget, base, [], [])
  {
  }

  lemma {:induction false} RanksGrow(list: seq<Block>, n: nat, wanted: Block -> bool, budget: Budget, base: seq<Block>,
                                     chosen: seq<Block>, rank: seq<nat>, p: nat, r: nat)
    requires TakenInOrder(list, n, wanted, budget, base, chosen, rank) && p <= r < |rank|
    ensures rank[p] <= rank[r] < n && (p < r ==> rank[p] < rank[r])
  {
    hide Fits;
    assert Takes(list, n, wanted, budget, base, chosen, rank, r);
    if p < r {
      RanksGrow(list, n, wanted, budget, base, chosen, rank, p, r - 1);
    }
  }

  lemma TakeOne(list: seq<Block>, n: nat, wanted: Block -> bool, budget: Budget, base: seq<Block>,
                chosen: seq<Block>, rank: seq<nat>)
    requires TakenInOrder(list, n, wanted, budget, base, chosen, rank) && n < |list|
    requires wanted(list[n]) && Fits(base + chosen, budget, list[n])
    ensures TakenInOrder(list, n + 1, wanted, budget, base, chosen + [list[n]], rank + [n])
  {
    hide Fits;
    var more, ranks := chosen + [list[n]], rank + [n];
    var next := n + 1;
    forall r | 0 <= r < |ranks| ensures Takes(list, next, wanted, budget, base, more, ranks, r) {
      if r < |rank| {
        assert Takes(list, n, wanted, budget, base, chosen, rank, r);
        assert more[..r] == chosen[..r];
      } else {
        assert more[..r] == chosen;
        if r > 0 {
          assert Takes(list, n, wanted, budget, base, chosen, rank, r - 1);
        }
      }
    }
    forall i, p | 0 <= i < n + 1 && 0 <= p <= |ranks| ensures PassesOver(list, wanted, budget, base, more, ranks, i, p) {
      if i < n && p <= |rank| {
        assert PassesOver(list, wanted, budget, base, chosen, rank, i, p);
        assert more[..p] == chosen[..p];
      }
    }
  }

  lemma PassOver(list: seq<Block>, n: nat, wanted: Block -> bool, budget: Budget, base: seq<Block>,
                 chosen: seq<Block>, rank: seq<nat>)
    requires TakenInOrder(list, n, wanted, budget, base, chosen, rank) && n < |list|
    requires !wanted(list[n]) || list[n] in base || list[n] in chosen || !Fits(base + chosen, budget, list[n])
    ensures TakenInOrder(list, n + 1, wanted, budget, base, chosen, rank)
  {
    hide Fits;
    var next := n + 1;
    forall r | 0 <= r < |rank| ensures Takes(list, next, wanted, budget, base, chosen, rank, r) {
      assert Takes(list, n, wanted, budget, base, chosen, rank, r);
    }
    forall i, p | 0 <= i < n + 1 && 0 <= p <= |rank| ensures PassesOver(list, wanted, budget, base, chosen, rank, i, p) {
      if i < n {
        assert PassesOver(list, wanted, budget, base, chosen, rank, i, p);
      } else if p < |rank| {
        assert Takes(list, n, wanted, budget, base, chosen, rank, p);
      } else {
        assert chosen[..p] == chosen;
      }
    }
  }

  // ---------- Breadth first ----------

  // By which edge of which block each one was found.
  datatype Steps = Steps(caller: seq<nat>, edge: seq<nat>)

  // The p-th block found was found along an edge of an earlier one; found[m..] is what the walk has added.
  predicate FoundAlong(next: Block -> seq<Block>, found: seq<Block>, m: nat, caller: seq<nat>, edge: seq<nat>, p: int)
    requires m <= |found| && |caller| == |edge| == |found| - m && 0 <= p < |caller|
  {
    && caller[p] < m + p && edge[p] < |next(found[caller[p]])| && next(found[caller[p]])[edge[p]] == found[m + p]
    && (p > 0 ==> caller[p - 1] < caller[p] || (caller[p - 1] == caller[p] && edge[p - 1] < edge[p]))
  }

  // The walk takes what it has found in order of finding, and the edges of each in their own order.
  ghost predicate BreadthFirst(next: Block -> seq<Block>, found: seq<Block>, m: nat, caller: seq<nat>, edge: seq<nat>) {
    && m <= |found| && |caller| == |edge| == |found| - m
    && forall p :: 0 <= p < |caller| ==> FoundAlong(next, found, m, caller, edge, p)
  }

  // Everything was found along edges before edge t of block q.
  predicate FoundBefore(caller: seq<nat>, edge: seq<nat>, q: nat, t: nat) {
    && |caller| == |edge|
    && (caller != [] ==> caller[|caller| - 1] < q || (caller[|caller| - 1] == q && edge[|edge| - 1] < t))
  }

  lemma FindOne(next: Block -> seq<Block>, found: seq<Block>, m: nat, caller: seq<nat>, edge: seq<nat>, q: nat, t: nat)
    requires BreadthFirst(next, found, m, caller, edge) && q < |found| && t < |next(found[q])|
    requires FoundBefore(caller, edge, q, t)
    ensures BreadthFirst(next, found + [next(found[q])[t]], m, caller + [q], edge + [t])
    ensures FoundBefore(caller + [q], edge + [t], q, t + 1)
  {
    var more, callers, edges := found + [next(found[q])[t]], caller + [q], edge + [t];
    forall p | 0 <= p < |callers| ensures FoundAlong(next, more, m, callers, edges, p) {
      if p < |caller| {
        assert FoundAlong(next, found, m, caller, edge, p);
      }
    }
  }

  // What was found up to and with block q's edges is found[..e].
  predicate EndOfTurn(caller: seq<nat>, m: nat, q: int, e: int) {
    && m <= e <= m + |caller| && (e > m ==> caller[e - m - 1] <= q) && (e < m + |caller| ==> caller[e - m] > q)
  }

  // Each block had room when it was found, and what an earlier block leads to had none after that one's turn.
  ghost predicate FoundInTurn(next: Block -> seq<Block>, budget: Budget, found: seq<Block>, m: nat, caller: seq<nat>, turns: nat) {
    && m <= |found| && |caller| == |found| - m && turns <= |found|
    && (forall k :: m <= k < |found| ==> Fits(found[..k], budget, found[k]))
    && (forall q, e, c :: 0 <= q < turns && EndOfTurn(caller, m, q, e) && c in next(found[q]) ==>
          c in found || !Fits(found[..e], budget, c))
  }

  lemma FindInTurn(next: Block -> seq<Block>, budget: Budget, found: seq<Block>, m: nat, caller: seq<nat>, q: nat, b: Block)
    requires FoundInTurn(next, budget, found, m, caller, q) && Fits(found, budget, b)
    ensures FoundInTurn(next, budget, found + [b], m, caller + [q], q)
  {
    hide Fits;
    var more, callers := found + [b], caller + [q];
    forall k | m <= k < |more| ensures Fits(more[..k], budget, more[k]) {
      assert more[..k] == found[..k];
      assert found[..|found|] == found;
    }
    forall t, e, c | 0 <= t < q && EndOfTurn(callers, m, t, e) && c in next(more[t])
      ensures c in more || !Fits(more[..e], budget, c)
    {
      assert e <= |found| && EndOfTurn(caller, m, t, e);
      assert more[..e] == found[..e] && more[t] == found[t];
    }
  }

  lemma TurnIsOver(next: Block -> seq<Block>, budget: Budget, found: seq<Block>, m: nat, caller: seq<nat>, q: nat)
    requires FoundInTurn(next, budget, found, m, caller, q) && q < |found|
    requires forall c :: c in next(found[q]) ==> c in found || !Fits(found, budget, c)
    requires forall p :: 0 <= p < |caller| ==> caller[p] <= q
    ensures FoundInTurn(next, budget, found, m, caller, q + 1)
  {
    hide Fits;
    forall t, e, c | 0 <= t < q + 1 && EndOfTurn(caller, m, t, e) && c in next(found[t])
      ensures c in found || !Fits(found[..e], budget, c)
    {
      if t == q {
        assert e == |found| && found[..e] == found;
      }
    }
  }

  lemma ListGrows(list: seq<Block>, b: Block, wanted: Block -> bool, budget: Budget, base: seq<Block>,
                  chosen: seq<Block>, rank: seq<nat>)
    requires TakenInOrder(list, |list|, wanted, budget, base, chosen, rank)
    ensures TakenInOrder(list + [b], |list|, wanted, budget, base, chosen, rank)
  {
    hide Fits;
    var n := |list|;
    forall r | 0 <= r < |rank| ensures Takes(list + [b], n, wanted, budget, base, chosen, rank, r) {
      assert Takes(list, n, wanted, budget, base, chosen, rank, r);
    }
    forall i, p | 0 <= i < n && 0 <= p <= |rank| ensures PassesOver(list + [b], wanted, budget, base, chosen, rank, i, p) {
      assert PassesOver(list, wanted, budget, base, chosen, rank, i, p);
    }
  }

  // What was not taken, in order.
  function Others(list: seq<Block>, chosen: seq<Block>): seq<Block> {
    if list == [] then []
    else Others(list[..|list| - 1], chosen) + if list[|list| - 1] in chosen then [] else [list[|list| - 1]]
  }

  lemma {:induction false} OthersWithout(list: seq<Block>, chosen: seq<Block>, b: Block)
    requires b !in list
    ensures Others(list, chosen + [b]) == Others(list, chosen)
  {
    if list != [] {
      OthersWithout(list[..|list| - 1], chosen, b);
    }
  }

  lemma OthersSnoc(list: seq<Block>, b: Block, chosen: seq<Block>)
    ensures Others(list + [b], chosen) == Others(list, chosen) + if b in chosen then [] else [b]
  {
    assert (list + [b])[..|list|] == list;
  }

  lemma {:induction false} OthersMembers(list: seq<Block>, chosen: seq<Block>, b: Block)
    ensures b in Others(list, chosen) <==> b in list && b !in chosen
  {
    if list != [] {
      OthersMembers(list[..|list| - 1], chosen, b);
      assert list == list[..|list| - 1] + [list[|list| - 1]];
    }
  }

  // At the end of a list whatever was passed over has no room behind all that was taken.
  lemma {:induction false} PrefixHasRoom(included: seq<Block>, k: nat, budget: Budget, b: Block)
    requires k <= |included|
    ensures Fits(included, budget, b) ==> Fits(included[..k], budget, b)
    decreases |included|
  {
    hide Fits;
    var n := |included| - 1;
    if k <= n {
      assert included == included[..n] + [included[n]];
      if !Fits(included[..n], budget, b) {
        RoomOnlyShrinks(included[..n], included[n], budget, b);
      }
      PrefixHasRoom(included[..n], k, budget, b);
      assert included[..n][..k] == included[..k];
    } else {
      assert included[..k] == included;
    }
  }

  lemma SomePlace(rank: seq<nat>, i: int) returns (p: nat)
    requires forall r :: 0 < r < |rank| ==> rank[r - 1] < rank[r]
    requires i !in rank
    ensures Place(rank, i, p)
  {
    p := 0;
    while p < |rank| && rank[p] < i
      invariant p <= |rank| && (p > 0 ==> rank[p - 1] < i)
    {
      p := p + 1;
    }
  }

  lemma NotTakenHasNoRank(list: seq<Block>, wanted: Block -> bool, budget: Budget, base: seq<Block>, chosen: seq<Block>,
                          rank: seq<nat>, i: nat)
    requires TakenInOrder(list, |list|, wanted, budget, base, chosen, rank) && i < |list| && list[i] !in chosen
    ensures i !in rank
  {
    hide Fits;
    forall r | 0 <= r < |rank| ensures rank[r] != i {
      assert Takes(list, |list|, wanted, budget, base, chosen, rank, r);
    }
  }

  // What was not taken has no room behind all that was.
  lemma PassedOverHasNoRoom(list: seq<Block>, wanted: Block -> bool, budget: Budget, base: seq<Block>, chosen: seq<Block>,
                            rank: seq<nat>, included: seq<Block>, i: nat)
    requires TakenInOrder(list, |list|, wanted, budget, base, chosen, rank) && base + chosen <= included
    requires i < |list| && wanted(list[i]) && list[i] !in base && list[i] !in chosen
    ensures !Fits(included, budget, list[i])
  {
    hide Fits;
    NotTakenHasNoRank(list, wanted, budget, base, chosen, rank, i);
    forall r | 0 < r < |rank| ensures rank[r - 1] < rank[r] {
      assert Takes(list, |list|, wanted, budget, base, chosen, rank, r);
    }
    var p := SomePlace(rank, i);
    assert PassesOver(list, wanted, budget, base, chosen, rank, i, p);
    PrefixHasRoom(included, |base| + p, budget, list[i]);
    assert included[..|base| + p] == base + chosen[..p];
  }

  lemma WantedAreTried(list: seq<Block>, wanted: Block -> bool, budget: Budget, base: seq<Block>, chosen: seq<Block>,
                       rank: seq<nat>, included: seq<Block>, b: Block)
    requires TakenInOrder(list, |list|, wanted, budget, base, chosen, rank) && base + chosen <= included
    requires b in list && wanted(b)
    ensures b in included || !Fits(included, budget, b)
  {
    hide Fits, TakenInOrder;
    var i :| 0 <= i < |list| && list[i] == b;
    assert b in base ==> b in base + chosen;
    assert b in chosen ==> b in base + chosen;
    if b !in base && b !in chosen {
      PassedOverHasNoRoom(list, wanted, budget, base, chosen, rank, included, i);
    }
  }

  lemma {:induction false} FittingStaysWithin(included: seq<Block>, m: nat, k: nat, budget: Budget, forced: seq<Block>)
    requires m <= k <= |included| && WithinBudget(included[..m], budget, forced)
    requires forall j :: m <= j < k ==> Fits(included[..j], budget, included[j])
    ensures WithinBudget(included[..k], budget, forced)
  {
    hide Fits, WithinBudget;
    if m < k {
      FittingStaysWithin(included, m, k - 1, budget, forced);
      UnforcedStaysWithin(included[..k - 1], budget, forced, included[k - 1]);
      assert included[..k - 1] + [included[k - 1]] == included[..k];
    }
  }

  lemma ForcedStaysWithin(forced: seq<Block>, budget: Budget)
    ensures WithinBudget(forced, budget, forced)
  {
  }

  lemma NewBlocksShrinkTheRest(blocks: seq<Block>, before: seq<Block>, now: seq<Block>)
    requires before <= now && DistinctIds(now) && forall b :: b in now ==> b in blocks
    ensures before == now || Queued(blocks) - Queued(now) < Queued(blocks) - Queued(before)
  {
    if before != now {
      var b := now[|before|];
      assert b !in before;
      assert b in Queued(blocks) - Queued(before) && b !in Queued(blocks) - Queued(now);
      assert Queued(before) <= Queued(now);
    }
  }

  lemma {:induction false} OthersKeepDistinct(list: seq<Block>, chosen: seq<Block>)
    requires DistinctIds(list)
    ensures DistinctIds(Others(list, chosen))
  {
    if list != [] {
      var n := |list| - 1;
      OthersKeepDistinct(list[..n], chosen);
      forall b | b in Others(list[..n], chosen) ensures b.id != list[n].id {
        OthersMembers(list[..n], chosen, b);
        var i :| 0 <= i < n && list[i] == b;
      }
    }
  }
}
