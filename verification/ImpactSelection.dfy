/** The blast radius of a symbol (selectImpact in context-pruner/src/select.ts). */
module ImpactSelection {
  import opened Prelude
  import opened Reachability
  import opened ContextSelection

  function CallerEdges(blocks: seq<Block>): Block -> seq<Block> {
    b => CallersOf(blocks, b)
  }

  // b is the root or calls it, directly or through others.
  ghost predicate Affected(blocks: seq<Block>, root: Block, b: Block) {
    Reaches(CallerEdges(blocks), root, b)
  }

  // ---------- What the walk finds ----------

  // Breadth first from the root: every block once, and by now the callers of the first `turns` of them.
  ghost predicate Walk(blocks: seq<Block>, root: Block, found: seq<Block>, walk: Steps, turns: nat) {
    && found != [] && found[0] == root && turns <= |found|
    && DistinctIds(found) && (forall b :: b in found ==> b in blocks)
    && BreadthFirst(CallerEdges(blocks), found, 1, walk.caller, walk.edge)
    && forall q, c :: 0 <= q < turns && c in CallersOf(blocks, found[q]) ==> c in found
  }

  lemma {:induction false} FoundIsAffected(blocks: seq<Block>, root: Block, found: seq<Block>, walk: Steps, turns: nat, k: nat)
    requires Walk(blocks, root, found, walk, turns) && k < |found|
    ensures Affected(blocks, root, found[k])
  {
    hide CallersOf, DistinctIds;
    if k == 0 {
      ReachesItself(CallerEdges(blocks), root);
    } else {
      assert FoundAlong(CallerEdges(blocks), found, 1, walk.caller, walk.edge, k - 1);
      var q := walk.caller[k - 1];
      FoundIsAffected(blocks, root, found, walk, turns, q);
      ReachesOn(CallerEdges(blocks), root, found[q], found[k]);
    }
  }

  /** When every block found has had its turn, the walk has found exactly what is affected. */
  lemma FinishedWalkIsTheClosure(blocks: seq<Block>, root: Block, found: seq<Block>, walk: Steps, b: Block)
    requires Walk(blocks, root, found, walk, |found|)
    ensures b in found <==> Affected(blocks, root, b)
  {
    hide CallersOf, DistinctIds;
    if b in found {
      var k :| 0 <= k < |found| && found[k] == b;
      FoundIsAffected(blocks, root, found, walk, |found|, k);
    }
    var seen, next := Queued(found), CallerEdges(blocks);
    forall x, c | x in seen && c in next(x) ensures c in seen {
      var q :| 0 <= q < |found| && found[q] == x;
    }
    if Affected(blocks, root, b) {
      ClosedHoldsReachable(next, seen, root, b);
    }
  }

  // ---------- What of it is included ----------

  predicate AnyBlock(b: Block) {
    true
  }

  // The root first; then each block found is included when it fits behind those before it, and excluded otherwise.
  ghost predicate Split(root: Block, found: seq<Block>, budget: Budget, included: seq<Block>, excluded: seq<Block>,
                        rank: seq<nat>) {
    && found != [] && included != [] && included[0] == root
    && TakenInOrder(found[1..], |found| - 1, AnyBlock, budget, [root], included[1..], rank)
    && excluded == Others(found[1..], included[1..])
  }

  lemma SplitAtRoot(root: Block, budget: Budget)
    ensures Split(root, [root], budget, [root], [], [])
  {
    assert [root][1..] == [];
    NothingTaken([], AnyBlock, budget, [root]);
  }

  // The list without the root grows by one.
  lemma TakeOrPass(root: Block, list: seq<Block>, budget: Budget, chosen: seq<Block>, rank: seq<nat>, b: Block)
    requires TakenInOrder(list, |list|, AnyBlock, budget, [root], chosen, rank) && b !in list && b !in chosen
    ensures if Fits([root] + chosen, budget, b) then
              TakenInOrder(list + [b], |list| + 1, AnyBlock, budget, [root], chosen + [b], rank + [|list|])
              && Others(list + [b], chosen + [b]) == Others(list, chosen)
            else
              TakenInOrder(list + [b], |list| + 1, AnyBlock, budget, [root], chosen, rank)
              && Others(list + [b], chosen) == Others(list, chosen) + [b]
  {
    hide Fits, TakenInOrder, Others;
    ListGrows(list, b, AnyBlock, budget, [root], chosen, rank);
    if Fits([root] + chosen, budget, b) {
      TakeOne(list + [b], |list|, AnyBlock, budget, [root], chosen, rank);
      OthersWithout(list, chosen, b);
      OthersSnoc(list, b, chosen + [b]);
    } else {
      PassOver(list + [b], |list|, AnyBlock, budget, [root], chosen, rank);
      OthersSnoc(list, b, chosen);
    }
  }

  lemma SplitOneMore(root: Block, found: seq<Block>, budget: Budget, included: seq<Block>, excluded: seq<Block>,
                     rank: seq<nat>, b: Block)
    requires Split(root, found, budget, included, excluded, rank) && b !in found && b !in included
    ensures if Fits(included, budget, b) then Split(root, found + [b], budget, included + [b], excluded, rank + [|found| - 1])
            else Split(root, found + [b], budget, included, excluded + [b], rank)
  {
    hide Fits, TakenInOrder, Others;
    var list, chosen := found[1..], included[1..];
    assert included == [root] + chosen && (found + [b])[1..] == list + [b] && (included + [b])[1..] == chosen + [b];
    TakeOrPass(root, list, budget, chosen, rank, b);
  }

  lemma SplitMembers(root: Block, found: seq<Block>, budget: Budget, included: seq<Block>, excluded: seq<Block>,
                     rank: seq<nat>, b: Block)
    requires Split(root, found, budget, included, excluded, rank) && found[0] == root
    ensures b in found <==> b in included || b in excluded
    ensures b in included ==> b in found
  {
    hide Fits;
    OthersMembers(found[1..], included[1..], b);
    assert found == [root] + found[1..] && included == [root] + included[1..];
    if b in included[1..] {
      var r :| 0 <= r < |included[1..]| && included[1..][r] == b;
      assert Takes(found[1..], |found| - 1, AnyBlock, budget, [root], included[1..], rank, r);
    }
  }

  lemma SplitIsSound(root: Block, found: seq<Block>, budget: Budget, included: seq<Block>, excluded: seq<Block>,
                     rank: seq<nat>)
    requires Split(root, found, budget, included, excluded, rank) && found[0] == root && DistinctIds(found)
    ensures WithinBudget(included, budget, [root])
    ensures forall b :: b in excluded ==> !Fits(included, budget, b)
  {
    hide Fits, WithinBudget;
    var list, chosen := found[1..], included[1..];
    assert included == [root] + chosen && included[..1] == [root];
    ForcedStaysWithin([root], budget);
    forall j | 1 <= j < |included| ensures Fits(included[..j], budget, included[j]) {
      assert Takes(list, |list|, AnyBlock, budget, [root], chosen, rank, j - 1);
      assert included[..j] == [root] + chosen[..j - 1];
    }
    FittingStaysWithin(included, 1, |included|, budget, [root]);
    assert included[..|included|] == included;
    forall b | b in excluded ensures !Fits(included, budget, b) {
      OthersMembers(list, chosen, b);
      var i :| 0 <= i < |list| && list[i] == b;
      assert found[i + 1] == b && found[0] == root && found[i + 1].id != found[0].id;
      PassedOverHasNoRoom(list, AnyBlock, budget, [root], chosen, rank, included, i);
    }
  }

  // ---------- The selection ----------

  // How an impact selection comes about.
  ghost predicate Selected(blocks: seq<Block>, root: Block, budget: Budget, included: seq<Block>, excluded: seq<Block>) {
    exists found: seq<Block>, walk: Steps, rank: seq<nat> ::
      Walk(blocks, root, found, walk, |found|) && Split(root, found, budget, included, excluded, rank)
  }

  function IdsOf(found: seq<Block>): set<int> {
    set c | c in found :: c.id
  }

  lemma IdMeansFound(blocks: seq<Block>, found: seq<Block>, b: Block)
    requires DistinctIds(blocks) && b in blocks && (forall c :: c in found ==> c in blocks)
    ensures b.id in IdsOf(found) <==> b in found
    ensures IdsOf(found + [b]) == IdsOf(found) + {b.id}
  {
  }

  lemma WalkOneMore(blocks: seq<Block>, root: Block, found: seq<Block>, walk: Steps, q: nat, t: nat)
    requires Walk(blocks, root, found, walk, q) && DistinctIds(blocks) && q < |found| && t < |CallersOf(blocks, found[q])|
    requires FoundBefore(walk.caller, walk.edge, q, t) && CallersOf(blocks, found[q])[t] !in found
    ensures var b := CallersOf(blocks, found[q])[t];
      var more := Steps(walk.caller + [q], walk.edge + [t]);
      Walk(blocks, root, found + [b], more, q) && FoundBefore(more.caller, more.edge, q, t + 1)
  {
    var b := CallersOf(blocks, found[q])[t];
    EdgesStayInside(blocks, found[q], b);
    hide CallersOf, BreadthFirst;
    FindOne(CallerEdges(blocks), found, 1, walk.caller, walk.edge, q, t);
    forall k | 0 <= k < |found| ensures found[k].id != b.id {
      assert found[k] in found && found[k] in blocks;
    }
  }

  // The inner loop: every caller of `current` not reached before is added or excluded, and queued.
  method Visit(blocks: seq<Block>, ghost root: Block, pack: Pack, current: Block, targets: seq<Block>, queueIn: seq<Block>,
               reachedIn: set<int>, excludedIn: seq<Block>, ghost foundIn: seq<Block>, ghost walkIn: Steps,
               ghost rankIn: seq<nat>, ghost q: nat)
    returns (queue: seq<Block>, reached: set<int>, excluded: seq<Block>, ghost found: seq<Block>, ghost walk: Steps,
             ghost rank: seq<nat>)
    requires DistinctIds(blocks) && pack.Valid(blocks) && targets == CallersOf(blocks, current)
    requires q < |foundIn| && foundIn[q] == current && queueIn == foundIn[q + 1..]
    requires reachedIn == IdsOf(foundIn)
    requires Walk(blocks, root, foundIn, walkIn, q) && FoundBefore(walkIn.caller, walkIn.edge, q, 0)
    requires Split(root, foundIn, pack.budget, pack.included, excludedIn, rankIn)
    modifies pack
    ensures pack.Valid(blocks) && foundIn <= found && queue == found[q + 1..] && reached == IdsOf(found)
    ensures Walk(blocks, root, found, walk, q + 1) && FoundBefore(walk.caller, walk.edge, q + 1, 0)
    ensures Split(root, found, pack.budget, pack.included, excluded, rank)
  {
    hide Fits, Split, Walk, DistinctIds, CallersOf, IdsOf, FoundBefore;
    queue, reached, excluded, found, walk, rank := queueIn, reachedIn, excludedIn, foundIn, walkIn, rankIn;
    for t := 0 to |targets|
      invariant pack.Valid(blocks) && foundIn <= found && queue == found[q + 1..] && reached == IdsOf(found)
      invariant Walk(blocks, root, found, walk, q) && FoundBefore(walk.caller, walk.edge, q, t)
      invariant forall k :: 0 <= k < t ==> targets[k] in found
      invariant Split(root, found, pack.budget, pack.included, excluded, rank)
    {
      var target := targets[t];
      EdgesStayInside(blocks, current, target);
      FoundAreCandidates(blocks, root, found, walk, q);
      IdMeansFound(blocks, found, target);
      if target.id in reached {
        EdgePassed(walk, q, t);
        continue;
      }
      ghost var before := pack.included;
      SplitMembers(root, found, pack.budget, before, excluded, rank, target);
      SplitOneMore(root, found, pack.budget, before, excluded, rank, target);
      WalkOneMore(blocks, root, found, walk, q, t);
      var ok := pack.Add(blocks, target, false);
      if !ok {
        excluded := excluded + [target];
      }
      rank := if ok then rank + [|found| - 1] else rank;
      found, walk := found + [target], Steps(walk.caller + [q], walk.edge + [t]);
      queue := queue + [target];
      reached := reached + {target.id};
    }
    TurnOver(blocks, root, found, walk, q, |targets|);
  }

  lemma EdgePassed(walk: Steps, q: nat, t: nat)
    requires FoundBefore(walk.caller, walk.edge, q, t)
    ensures FoundBefore(walk.caller, walk.edge, q, t + 1)
  {
  }

  lemma FoundAreCandidates(blocks: seq<Block>, root: Block, found: seq<Block>, walk: Steps, turns: nat)
    requires Walk(blocks, root, found, walk, turns)
    ensures found != [] && found[0] == root && DistinctIds(found) && forall c :: c in found ==> c in blocks
  {
  }

  lemma TurnOver(blocks: seq<Block>, root: Block, found: seq<Block>, walk: Steps, q: nat, t: nat)
    requires Walk(blocks, root, found, walk, q) && q < |found| && FoundBefore(walk.caller, walk.edge, q, t)
    requires forall c :: c in CallersOf(blocks, found[q]) ==> c in found
    ensures Walk(blocks, root, found, walk, q + 1) && FoundBefore(walk.caller, walk.edge, q + 1, 0)
  {
    hide CallersOf, BreadthFirst, DistinctIds;
  }

  lemma StartWalk(blocks: seq<Block>, root: Block)
    requires root in blocks
    ensures Walk(blocks, root, [root], Steps([], []), 0)
  {
  }

  /** The selection holds exactly what is affected, the root first and included whatever the budget, the rest in the
      order of the walk: nearest callers have the budget first. */
  method SelectImpact(blocks: seq<Block>, symbol: string, limit: Option<int>, maxTokens: Option<int>)
    returns (included: seq<Block>, excluded: seq<Block>, usedTokens: int)
    requires DistinctIds(blocks)
    ensures FirstNamed(blocks, symbol) == None ==> included == [] && excluded == [] && usedTokens == 0
    ensures FirstNamed(blocks, symbol).Some? ==>
      var root := FirstNamed(blocks, symbol).value;
      var budget := BudgetOf(limit, maxTokens);
      && included != [] && included[0] == root
      && DistinctIds(included + excluded)
      && (forall b :: b in included + excluded <==> Affected(blocks, root, b))
      && usedTokens == TotalTokens(included)
      && WithinBudget(included, budget, [root])
      && (forall b :: b in excluded ==> !Fits(included, budget, b))
      && Selected(blocks, root, budget, included, excluded)
  {
    hide Affected, Fits, WithinBudget, TotalTokens, CallersOf, Split, Walk;
    var byName, byFqn := BuildIndexes(blocks);
    if symbol !in byName {
      return [], [], 0;
    }
    var root := byName[symbol];
    FirstNamedIsACandidate(blocks, symbol);
    var budget := BudgetOf(limit, maxTokens);
    var pack := new Pack(budget);
    var ok := pack.Add(blocks, root, true);
    excluded := [];
    var reached := {root.id};
    var queue := [root];
    ghost var found, walk, rank, q := [root], Steps([], []), [], 0;
    assert pack.included == [root];
    StartWalk(blocks, root);
    SplitAtRoot(root, budget);
    while queue != []
      invariant fresh(pack) && pack.Valid(blocks) && pack.budget == budget
      invariant q <= |found| && queue == found[q..] && reached == IdsOf(found)
      invariant Walk(blocks, root, found, walk, q) && FoundBefore(walk.caller, walk.edge, q, 0)
      invariant Split(root, found, budget, pack.included, excluded, rank)
      decreases Queued(blocks) - Queued(found), |queue|
    {
      ghost var before := found;
      var current := queue[0];
      queue := queue[1..];
      var targets := CallersFrom(blocks, current, byName, byFqn);
      queue, reached, excluded, found, walk, rank :=
        Visit(blocks, root, pack, current, targets, queue, reached, excluded, found, walk, rank, q);
      q := q + 1;
      FoundAreCandidates(blocks, root, found, walk, q);
      NewBlocksShrinkTheRest(blocks, before, found);
    }
    SelectionIsSound(blocks, root, budget, pack.included, excluded, found, walk, rank);
    return pack.included, excluded, pack.usedTokens;
  }

  lemma SplitIsDistinct(root: Block, found: seq<Block>, budget: Budget, included: seq<Block>, excluded: seq<Block>,
                        rank: seq<nat>)
    requires Split(root, found, budget, included, excluded, rank) && found[0] == root
    requires DistinctIds(found) && DistinctIds(included)
    ensures DistinctIds(included + excluded)
  {
    OthersKeepDistinct(found[1..], included[1..]);
    hide Fits, TakenInOrder;
    forall i, j | 0 <= i < |included| && 0 <= j < |excluded| ensures included[i].id != excluded[j].id {
      SplitMembers(root, found, budget, included, excluded, rank, included[i]);
      OthersMembers(found[1..], included[1..], excluded[j]);
      var a, b :| 0 <= a < |found| && found[a] == included[i] && 0 <= b < |found[1..]| && found[1..][b] == excluded[j];
      assert found[b + 1] == excluded[j];
      assert i > 0 ==> included[1..][i - 1] == included[i];
    }
  }

  lemma SelectionIsSound(blocks: seq<Block>, root: Block, budget: Budget, included: seq<Block>, excluded: seq<Block>,
                         found: seq<Block>, walk: Steps, rank: seq<nat>)
    requires Walk(blocks, root, found, walk, |found|) && Split(root, found, budget, included, excluded, rank)
    requires DistinctIds(included) && DistinctIds(blocks)
    ensures included != [] && included[0] == root && DistinctIds(included + excluded)
    ensures forall b :: b in included + excluded <==> Affected(blocks, root, b)
    ensures WithinBudget(included, budget, [root]) && forall b :: b in excluded ==> !Fits(included, budget, b)
    ensures Selected(blocks, root, budget, included, excluded)
  {
    FoundAreCandidates(blocks, root, found, walk, |found|);
    SplitIsSound(root, found, budget, included, excluded, rank);
    hide Affected, Fits, WithinBudget, CallersOf, Walk, TakenInOrder;
    SplitIsDistinct(root, found, budget, included, excluded, rank);
    hide Split;
    forall b ensures b in included + excluded <==> Affected(blocks, root, b) {
      SplitMembers(root, found, budget, included, excluded, rank, b);
      FinishedWalkIsTheClosure(blocks, root, found, walk, b);
    }
  }

  method CallersFrom(blocks: seq<Block>, b: Block, byName: map<string, Block>, byFqn: map<string, Block>)
    returns (targets: seq<Block>)
    requires IndexesNames(byName, blocks) && IndexesFqns(byFqn, blocks)
    ensures targets == CallersOf(blocks, b)
  {
    if b.resolvedCalledBy.Some? {
      targets := EdgeTargets(blocks, b.resolvedCalledBy.value, byName, byFqn);
    } else {
      targets := NamedTargets(blocks, b.calledBy, byName);
    }
  }
}
