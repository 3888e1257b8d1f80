/** The context pack (selectPack in context-pruner/src/select.ts): forced blocks, then relevant ones
 *  under the budget, then the callees of what is in.
 */
module PackSelection {
  import opened Prelude
  import opened Reachability
  import opened ContextSelection

  function CalleeEdges(blocks: seq<Block>): Block -> seq<Block> {
    b => CalleesOf(blocks, b)
  }

  function ForcedOf(blocks: seq<Block>): seq<Block> {
    if blocks == [] then []
    else
      var last := blocks[|blocks| - 1];
      ForcedOf(blocks[..|blocks| - 1]) + if Forced(last) then [last] else []
  }

  lemma {:induction false} ForcedOfMembers(blocks: seq<Block>, b: Block)
    ensures b in ForcedOf(blocks) <==> b in blocks && Forced(b)
  {
    if blocks != [] {
      ForcedOfMembers(blocks[..|blocks| - 1], b);
      assert blocks == blocks[..|blocks| - 1] + [blocks[|blocks| - 1]];
    }
  }

  datatype Reason = Irrelevant | OverBudget

  // Everything left out, in order, with the reason the pack reports.
  function ExcludedOf(blocks: seq<Block>, included: seq<Block>): seq<(Block, Reason)> {
    if blocks == [] then []
    else
      var last := blocks[|blocks| - 1];
      ExcludedOf(blocks[..|blocks| - 1], included)
      + if last in included then [] else [(last, if Relevant(last) then OverBudget else Irrelevant)]
  }

  // ---------- What a pack owes ----------

  // The block is in, or the pack as it stands has no room for it.
  predicate InOrNoRoom(included: seq<Block>, budget: Budget, b: Block) {
    b in included || !Fits(included, budget, b)
  }

  ghost predicate RelevantTried(blocks: seq<Block>, budget: Budget, included: seq<Block>) {
    forall b :: b in blocks && Relevant(b) ==> InOrNoRoom(included, budget, b)
  }

  ghost predicate Seed(included: seq<Block>, b: Block) {
    b in included && (Forced(b) || Relevant(b))
  }

  // b is called, through blocks of the pack only, from a forced or relevant block of the pack.
  ghost predicate Rooted(blocks: seq<Block>, included: seq<Block>, b: Block) {
    exists s :: Seed(included, s) && ReachesWithin(CalleeEdges(blocks), Queued(included), s, b)
  }

  // ---------- Growing the pack ----------

  lemma GrowKeepsTried(budget: Budget, included: seq<Block>, added: Block, b: Block)
    requires InOrNoRoom(included, budget, b)
    ensures InOrNoRoom(included + [added], budget, b)
  {
    if !Fits(included, budget, b) {
      RoomOnlyShrinks(included, added, budget, b);
    }
  }

  lemma SeedIsRooted(blocks: seq<Block>, included: seq<Block>, b: Block)
    requires Seed(included, b)
    ensures Rooted(blocks, included, b)
  {
    ReachesItselfWithin(CalleeEdges(blocks), Queued(included), b);
  }

  lemma CalleeIsRooted(blocks: seq<Block>, included: seq<Block>, current: Block, b: Block)
    requires Rooted(blocks, included, current) && b in CalleesOf(blocks, current) && b in included
    ensures Rooted(blocks, included, b)
  {
    var s :| Seed(included, s) && ReachesWithin(CalleeEdges(blocks), Queued(included), s, current);
    ReachesOnWithin(CalleeEdges(blocks), Queued(included), s, current, b);
  }

  // ---------- The three stages ----------

  method AddForced(blocks: seq<Block>, pack: Pack)
    requires DistinctIds(blocks) && pack.Valid(blocks) && pack.included == []
    modifies pack
    ensures pack.Valid(blocks) && pack.included == ForcedOf(blocks)
  {
    for i := 0 to |blocks|
      invariant pack.Valid(blocks) && pack.included == ForcedOf(blocks[..i])
    {
      assert blocks[..i + 1][..i] == blocks[..i];
      if Forced(blocks[i]) {
        ForcedOfMembers(blocks[..i], blocks[i]);
        var ok := pack.Add(blocks, blocks[i], true);
      }
    }
    assert blocks[..|blocks|] == blocks;
  }

  // The relevant blocks of a pack, each taken when it fitted behind the more relevant ones.
  ghost predicate Ranked(blocks: seq<Block>, budget: Budget, chosen: seq<Block>, rank: seq<nat>) {
    TakenInOrder(blocks, |blocks|, Relevant, budget, ForcedOf(blocks), chosen, rank)
  }

  method AddRelevant(blocks: seq<Block>, pack: Pack) returns (ghost chosen: seq<Block>, ghost rank: seq<nat>)
    requires DistinctIds(blocks) && pack.Valid(blocks) && pack.included == ForcedOf(blocks)
    modifies pack
    ensures pack.Valid(blocks)
    ensures pack.included == ForcedOf(blocks) + chosen && Ranked(blocks, pack.budget, chosen, rank)
  {
    chosen, rank := [], [];
    NothingTaken(blocks, Relevant, pack.budget, ForcedOf(blocks));
    hide Fits, DistinctIds, TakenInOrder, ForcedOf;
    for i := 0 to |blocks|
      invariant pack.Valid(blocks) && pack.included == ForcedOf(blocks) + chosen
      invariant TakenInOrder(blocks, i, Relevant, pack.budget, ForcedOf(blocks), chosen, rank)
    {
      var b := blocks[i];
      var ok := false;
      if b.id !in pack.includedIds && Relevant(b) {
        assert b !in pack.included;
        ok := pack.Add(blocks, b, false);
      } else if Relevant(b) {
        IdMeansIn(blocks, pack.included, b);
      }
      if ok {
        TakeOne(blocks, i, Relevant, pack.budget, ForcedOf(blocks), chosen, rank);
        chosen, rank := chosen + [b], rank + [i];
      } else {
        PassOver(blocks, i, Relevant, pack.budget, ForcedOf(blocks), chosen, rank);
      }
    }
  }

  lemma TriedNow(included: seq<Block>, budget: Budget, b: Block)
    requires b in included || !Fits(included, budget, b)
    ensures InOrNoRoom(included, budget, b)
  {
  }

  lemma IdMeansIn(blocks: seq<Block>, included: seq<Block>, b: Block)
    requires DistinctIds(blocks) && b in blocks && (forall c :: c in included ==> c in blocks)
    requires b.id in (set c | c in included :: c.id)
    ensures b in included
  {
  }

  // The callees were found breadth first from what was there at first, in turn, up to edge t of block q.
  ghost predicate InTurn(blocks: seq<Block>, budget: Budget, included: seq<Block>, m: nat, walk: Steps, turns: nat,
                         q: nat, t: nat) {
    && BreadthFirst(CalleeEdges(blocks), included, m, walk.caller, walk.edge)
    && FoundInTurn(CalleeEdges(blocks), budget, included, m, walk.caller, turns)
    && FoundBefore(walk.caller, walk.edge, q, t) && forall p :: 0 <= p < |walk.caller| ==> walk.caller[p] <= q
  }

  lemma InTurnFound(blocks: seq<Block>, budget: Budget, included: seq<Block>, m: nat, walk: Steps, q: nat, t: nat)
    requires InTurn(blocks, budget, included, m, walk, q, q, t) && q < |included|
    requires t < |CalleesOf(blocks, included[q])| && Fits(included, budget, CalleesOf(blocks, included[q])[t])
    ensures InTurn(blocks, budget, included + [CalleesOf(blocks, included[q])[t]], m,
                   Steps(walk.caller + [q], walk.edge + [t]), q, q, t + 1)
  {
    hide Fits, CalleesOf, FoundInTurn, BreadthFirst;
    FindOne(CalleeEdges(blocks), included, m, walk.caller, walk.edge, q, t);
    FindInTurn(CalleeEdges(blocks), budget, included, m, walk.caller, q, CalleesOf(blocks, included[q])[t]);
  }

  lemma InTurnPassed(blocks: seq<Block>, budget: Budget, included: seq<Block>, m: nat, walk: Steps, q: nat, t: nat)
    ensures InTurn(blocks, budget, included, m, walk, q, q, t) ==> InTurn(blocks, budget, included, m, walk, q, q, t + 1)
  {
    hide Fits, CalleesOf, FoundInTurn, BreadthFirst;
  }

  lemma InTurnOver(blocks: seq<Block>, budget: Budget, included: seq<Block>, m: nat, walk: Steps, q: nat, t: nat)
    requires InTurn(blocks, budget, included, m, walk, q, q, t) && q < |included|
    requires forall c :: c in CalleesOf(blocks, included[q]) ==> InOrNoRoom(included, budget, c)
    ensures InTurn(blocks, budget, included, m, walk, q + 1, q + 1, 0)
  {
    hide Fits, CalleesOf, FoundInTurn, BreadthFirst;
    TurnIsOver(CalleeEdges(blocks), budget, included, m, walk.caller, q);
  }

  lemma InTurnAtFirst(blocks: seq<Block>, budget: Budget, included: seq<Block>)
    ensures InTurn(blocks, budget, included, |included|, Steps([], []), 0, 0, 0)
  {
  }

  // The inner loop of the closure: every callee of `current` is added if there is room, and queued.
  method Visit(blocks: seq<Block>, pack: Pack, current: Block, targets: seq<Block>, queueIn: seq<Block>,
               ghost m: nat, ghost q: nat, ghost walkIn: Steps)
    returns (queue: seq<Block>, ghost walk: Steps)
    requires DistinctIds(blocks) && pack.Valid(blocks) && targets == CalleesOf(blocks, current)
    requires q < |pack.included| && current == pack.included[q] && queueIn == pack.included[q + 1..]
    requires InTurn(blocks, pack.budget, pack.included, m, walkIn, q, q, 0)
    modifies pack
    ensures pack.Valid(blocks) && old(pack.included) <= pack.included
    ensures queue == pack.included[q + 1..] && InTurn(blocks, pack.budget, pack.included, m, walk, q + 1, q + 1, 0)
  {
    hide InOrNoRoom, Fits, CalleesOf, DistinctIds, InTurn;
    queue, walk := queueIn, walkIn;
    ghost var start := pack.included;
    for t := 0 to |targets|
      invariant pack.Valid(blocks) && start <= pack.included
      invariant queue == pack.included[q + 1..] && InTurn(blocks, pack.budget, pack.included, m, walk, q, q, t)
      invariant forall k :: 0 <= k < t ==> InOrNoRoom(pack.included, pack.budget, targets[k])
    {
      var target := targets[t];
      EdgesStayInside(blocks, current, target);
      ghost var before := pack.included;
      if target.id !in pack.includedIds {
        assert target !in before;
        var ok := pack.Add(blocks, target, false);
        if ok {
          InTurnFound(blocks, pack.budget, before, m, walk, q, t);
          walk := Steps(walk.caller + [q], walk.edge + [t]);
          forall k | 0 <= k < t
            ensures InOrNoRoom(pack.included, pack.budget, targets[k])
          {
            GrowKeepsTried(pack.budget, before, target, targets[k]);
          }
          queue := queue + [target];
        } else {
          InTurnPassed(blocks, pack.budget, pack.included, m, walk, q, t);
        }
      } else {
        IdMeansIn(blocks, pack.included, target);
        InTurnPassed(blocks, pack.budget, pack.included, m, walk, q, t);
      }
      TriedNow(pack.included, pack.budget, target);
    }
    InTurnOver(blocks, pack.budget, pack.included, m, walk, q, |targets|);
  }

  method CalleesFrom(blocks: seq<Block>, b: Block, byName: map<string, Block>, byFqn: map<string, Block>)
    returns (targets: seq<Block>)
    requires IndexesNames(byName, blocks) && IndexesFqns(byFqn, blocks)
    ensures targets == CalleesOf(blocks, b)
  {
    if b.resolvedCalls.Some? {
      targets := EdgeTargets(blocks, b.resolvedCalls.value, byName, byFqn);
    } else {
      targets := NamedTargets(blocks, b.calls, byName);
    }
  }

  method Exclude(blocks: seq<Block>, pack: Pack) returns (excluded: seq<(Block, Reason)>)
    requires DistinctIds(blocks) && pack.Valid(blocks)
    ensures excluded == ExcludedOf(blocks, pack.included)
  {
    excluded := [];
    for i := 0 to |blocks|
      invariant excluded == ExcludedOf(blocks[..i], pack.included)
    {
      assert blocks[..i + 1][..i] == blocks[..i];
      if blocks[i].id in pack.includedIds {
        IdMeansIn(blocks, pack.included, blocks[i]);
        continue;
      }
      assert blocks[i] !in pack.included;
      excluded := excluded + [(blocks[i], if Relevant(blocks[i]) then OverBudget else Irrelevant)];
    }
    assert blocks[..|blocks|] == blocks;
  }

  // How a pack is put together: the forced blocks, the relevant ones as they fit, most relevant first, then callees as
  // they fit, breadth first.
  ghost predicate Assembled(blocks: seq<Block>, budget: Budget, included: seq<Block>) {
    exists chosen: seq<Block>, rank: seq<nat>, walk: Steps ::
      AssembledBy(blocks, budget, included, chosen, rank, walk)
  }

  ghost predicate AssembledBy(blocks: seq<Block>, budget: Budget, included: seq<Block>, chosen: seq<Block>, rank: seq<nat>,
                              walk: Steps) {
    var seeds := ForcedOf(blocks) + chosen;
    && seeds <= included && Ranked(blocks, budget, chosen, rank)
    && BreadthFirst(CalleeEdges(blocks), included, |seeds|, walk.caller, walk.edge)
    && FoundInTurn(CalleeEdges(blocks), budget, included, |seeds|, walk.caller, |included|)
  }

  /** The pack is maximal: nothing relevant and nothing its blocks call could still be added. */
  method SelectPack(blocks: seq<Block>, limit: Option<int>, maxTokens: Option<int>)
    returns (included: seq<Block>, excluded: seq<(Block, Reason)>, usedTokens: int)
    requires DistinctIds(blocks)
    ensures var budget := BudgetOf(limit, maxTokens);
      && DistinctIds(included) && (forall b :: b in included ==> b in blocks)
      && ForcedOf(blocks) <= included
      && WithinBudget(included, budget, ForcedOf(blocks))
      && (forall b :: b in blocks && Relevant(b) ==> InOrNoRoom(included, budget, b))
      && (forall b, c :: b in included && c in CalleesOf(blocks, b) ==> InOrNoRoom(included, budget, c))
      && (forall b :: b in included ==> Rooted(blocks, included, b))
      && Assembled(blocks, budget, included)
    ensures usedTokens == TotalTokens(included)
    ensures excluded == ExcludedOf(blocks, included)
  {
    hide InOrNoRoom, Rooted, Fits, WithinBudget, CalleesOf, DistinctIds, InTurn, Ranked, Assembled,
      RelevantTried, ForcedOf, TotalTokens, IndexesNames, IndexesFqns;
    var pack := new Pack(BudgetOf(limit, maxTokens));
    AddForced(blocks, pack);
    ghost var chosen, rank := AddRelevant(blocks, pack);
    var byName, byFqn := BuildIndexes(blocks);
    var queue := pack.included;
    ghost var seeds, q, walk := pack.included, 0, Steps([], []);
    InTurnAtFirst(blocks, pack.budget, pack.included);
    while queue != []
      invariant fresh(pack) && pack.Valid(blocks) && pack.budget == BudgetOf(limit, maxTokens)
      invariant seeds <= pack.included && q <= |pack.included| && queue == pack.included[q..]
      invariant InTurn(blocks, pack.budget, pack.included, |seeds|, walk, q, q, 0)
      decreases Queued(blocks) - Queued(pack.included), |queue|
    {
      ghost var before := pack.included;
      var current := queue[0];
      queue := queue[1..];
      var targets := CalleesFrom(blocks, current, byName, byFqn);
      queue, walk := Visit(blocks, pack, current, targets, queue, |seeds|, q, walk);
      q := q + 1;
      NewBlocksShrinkTheRest(blocks, before, pack.included);
    }
    AssembledIs(blocks, pack.budget, pack.included, chosen, rank, walk, q);
    AssembledPackIsSound(blocks, pack.budget, pack.included);
    excluded := Exclude(blocks, pack);
    return pack.included, excluded, pack.usedTokens;
  }

  lemma AssembledIs(blocks: seq<Block>, budget: Budget, included: seq<Block>, chosen: seq<Block>, rank: seq<nat>,
                    walk: Steps, q: nat)
    requires ForcedOf(blocks) + chosen <= included && Ranked(blocks, budget, chosen, rank) && q == |included|
    requires InTurn(blocks, budget, included, |ForcedOf(blocks) + chosen|, walk, q, q, 0)
    ensures Assembled(blocks, budget, included)
  {
    hide Ranked, BreadthFirst, FoundInTurn, ForcedOf;
    assert AssembledBy(blocks, budget, included, chosen, rank, walk);
  }

  // ---------- What follows from the order ----------

  lemma RelevantAreTried(blocks: seq<Block>, budget: Budget, included: seq<Block>, chosen: seq<Block>, rank: seq<nat>)
    requires Ranked(blocks, budget, chosen, rank) && ForcedOf(blocks) + chosen <= included
    ensures RelevantTried(blocks, budget, included)
  {
    hide Fits, ForcedOf, Relevant, TakenInOrder;
    forall b | b in blocks && Relevant(b) ensures InOrNoRoom(included, budget, b) {
      WantedAreTried(blocks, Relevant, budget, ForcedOf(blocks), chosen, rank, included, b);
    }
  }

  lemma SomeEnd(caller: seq<nat>, m: nat, q: nat) returns (e: nat)
    requires forall p :: 0 < p < |caller| ==> caller[p - 1] <= caller[p]
    ensures EndOfTurn(caller, m, q, e)
  {
    e := m;
    while e < m + |caller| && caller[e - m] <= q
      invariant m <= e <= m + |caller| && (e > m ==> caller[e - m - 1] <= q)
    {
      e := e + 1;
    }
  }

  lemma CalleesAreTried(blocks: seq<Block>, budget: Budget, included: seq<Block>, m: nat, walk: Steps, b: Block, c: Block)
    requires BreadthFirst(CalleeEdges(blocks), included, m, walk.caller, walk.edge)
    requires FoundInTurn(CalleeEdges(blocks), budget, included, m, walk.caller, |included|)
    requires b in included && c in CalleesOf(blocks, b)
    ensures InOrNoRoom(included, budget, c)
  {
    hide Fits, CalleesOf;
    var q :| 0 <= q < |included| && included[q] == b;
    forall p | 0 < p < |walk.caller| ensures walk.caller[p - 1] <= walk.caller[p] {
      assert FoundAlong(CalleeEdges(blocks), included, m, walk.caller, walk.edge, p);
    }
    var e := SomeEnd(walk.caller, m, q);
    if Fits(included, budget, c) {
      PrefixHasRoom(included, e, budget, c);
    }
  }

  lemma {:induction false} FoundAreRooted(blocks: seq<Block>, included: seq<Block>, m: nat, walk: Steps, k: nat)
    requires BreadthFirst(CalleeEdges(blocks), included, m, walk.caller, walk.edge) && k < |included|
    requires forall j :: 0 <= j < m ==> Forced(included[j]) || Relevant(included[j])
    ensures Rooted(blocks, included, included[k])
  {
    hide Rooted, CalleesOf;
    if k < m {
      SeedIsRooted(blocks, included, included[k]);
    } else {
      var p := k - m;
      assert FoundAlong(CalleeEdges(blocks), included, m, walk.caller, walk.edge, p);
      FoundAreRooted(blocks, included, m, walk, walk.caller[p]);
      CalleeIsRooted(blocks, included, included[walk.caller[p]], included[k]);
    }
  }

  lemma AssembledStaysWithin(blocks: seq<Block>, budget: Budget, included: seq<Block>, chosen: seq<Block>, rank: seq<nat>,
                             walk: Steps)
    requires AssembledBy(blocks, budget, included, chosen, rank, walk)
    ensures WithinBudget(included, budget, ForcedOf(blocks))
  {
    hide Fits, WithinBudget, ForcedOf, Relevant;
    var base := ForcedOf(blocks);
    ForcedStaysWithin(base, budget);
    assert included[..|base|] == base;
    forall j | |base| <= j < |included| ensures Fits(included[..j], budget, included[j]) {
      var r := j - |base|;
      if r < |chosen| {
        assert Takes(blocks, |blocks|, Relevant, budget, base, chosen, rank, r);
        assert included[..j] == base + chosen[..r] && included[j] == chosen[r];
      }
    }
    FittingStaysWithin(included, |base|, |included|, budget, base);
    assert included[..|included|] == included;
  }

  lemma SeedsAreSeeds(blocks: seq<Block>, budget: Budget, chosen: seq<Block>, rank: seq<nat>, b: Block)
    requires Ranked(blocks, budget, chosen, rank) && b in ForcedOf(blocks) + chosen
    ensures Forced(b) || Relevant(b)
  {
    hide Fits, Relevant, Forced, ForcedOf;
    ForcedOfMembers(blocks, b);
    if b in chosen {
      var r :| 0 <= r < |chosen| && chosen[r] == b;
      assert Takes(blocks, |blocks|, Relevant, budget, ForcedOf(blocks), chosen, rank, r);
    }
  }

  /** A pack put together in this order is maximal, within its budget, and rooted in what was asked for. */
  lemma AssembledPackIsSound(blocks: seq<Block>, budget: Budget, included: seq<Block>)
    requires Assembled(blocks, budget, included)
    ensures ForcedOf(blocks) <= included && WithinBudget(included, budget, ForcedOf(blocks))
    ensures forall b :: b in blocks && Relevant(b) ==> InOrNoRoom(included, budget, b)
    ensures forall b, c :: b in included && c in CalleesOf(blocks, b) ==> InOrNoRoom(included, budget, c)
    ensures forall b :: b in included ==> Rooted(blocks, included, b)
  {
    hide InOrNoRoom, Rooted, Ranked, BreadthFirst, FoundInTurn, ForcedOf, WithinBudget, CalleesOf, Forced, Relevant;
    var chosen: seq<Block>, rank: seq<nat>, walk: Steps :| AssembledBy(blocks, budget, included, chosen, rank, walk);
    var seeds := ForcedOf(blocks) + chosen;
    AssembledStaysWithin(blocks, budget, included, chosen, rank, walk);
    RelevantAreTried(blocks, budget, included, chosen, rank);
    forall b, c | b in included && c in CalleesOf(blocks, b) ensures InOrNoRoom(included, budget, c) {
      CalleesAreTried(blocks, budget, included, |seeds|, walk, b, c);
    }
    forall j | 0 <= j < |seeds| ensures Forced(included[j]) || Relevant(included[j]) {
      SeedsAreSeeds(blocks, budget, chosen, rank, seeds[j]);
    }
    forall b | b in included ensures Rooted(blocks, included, b) {
      var k :| 0 <= k < |included| && included[k] == b;
      FoundAreRooted(blocks, included, |seeds|, walk, k);
    }
  }

  /** What is left out is reported once, as over the budget when its score is relevant and as irrelevant otherwise. */
  lemma {:induction false} ExcludedByReason(blocks: seq<Block>, included: seq<Block>, b: Block, reason: Reason)
    ensures (b, reason) in ExcludedOf(blocks, included) <==>
      b in blocks && b !in included && (reason == OverBudget <==> b.score >= 0.05)
  {
    if blocks != [] {
      ExcludedByReason(blocks[..|blocks| - 1], included, b, reason);
      assert blocks == blocks[..|blocks| - 1] + [blocks[|blocks| - 1]];
    }
  }
}
