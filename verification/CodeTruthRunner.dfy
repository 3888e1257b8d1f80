/** The verify run over a registry of memories (core/src/code-truth.ts): plan, then one batch of patches. */
module CodeTruthRunner {
  import opened Prelude
  import opened CodeTruth
  import opened CodeTruthGit

  // ---------- The plan ----------

  datatype Move = Move(id: int, repoint: Repoint)

  datatype Plan = Plan(
    contradicted: seq<Finding>,
    healed: seq<int>,
    verified: seq<int>,
    repointed: seq<Move>,
    unanchored: seq<int>)

  const EmptyPlan := Plan([], [], [], [], [])

  function Joined(p: Plan, q: Plan): Plan {
    Plan(p.contradicted + q.contradicted, p.healed + q.healed, p.verified + q.verified,
         p.repointed + q.repointed, p.unanchored + q.unanchored)
  }

  function Moves(id: int, repoints: seq<Repoint>): seq<Move> {
    seq(|repoints|, i requires 0 <= i < |repoints| => Move(id, repoints[i]))
  }

  function RowPlan(row: Row, repo: Repo): Plan {
    if row.anchor == None then EmptyPlan.(unanchored := [row.id])
    else
      var moved := EmptyPlan.(repointed := Moves(row.id, RepointsFor(row, repo)));
      var failure := FirstContradiction(row.anchor.value, repo);
      if failure.Some? then moved.(contradicted := [FindingOf(row.id, failure.value, repo)])
      else if IsContradicted(row) then moved.(healed := [row.id])
      else moved.(verified := [row.id])
  }

  // Every row is planned on its own, and the lists keep the order of the rows.
  function PlanOf(rows: seq<Row>, repo: Repo): Plan {
    if rows == [] then EmptyPlan
    else Joined(PlanOf(rows[..|rows| - 1], repo), RowPlan(rows[|rows| - 1], repo))
  }

  method CollectMoves(id: int, cited: seq<string>, repo: Repo, before: seq<Move>) returns (moves: seq<Move>)
    ensures moves == before + Moves(id, RepointsAmong(cited, repo))
  {
    moves := before;
    for k := 0 to |cited|
      invariant moves == before + Moves(id, RepointsAmong(cited[..k], repo))
    {
      assert cited[..k + 1][..k] == cited[..k];
      if cited[k] in repo.renames {
        moves := moves + [Move(id, Repoint(cited[k], repo.renames[cited[k]]))];
      }
    }
    assert cited[..|cited|] == cited;
  }

  method VerifyAnchors(rows: seq<Row>, repo: Repo) returns (plan: Plan)
    ensures plan == PlanOf(rows, repo)
  {
    hide FirstContradiction, RepointsAmong, CitedPaths, FindingOf;
    plan := EmptyPlan;
    for k := 0 to |rows|
      invariant plan == PlanOf(rows[..k], repo)
    {
      assert rows[..k + 1][..k] == rows[..k];
      var row := rows[k];
      if row.anchor == None {
        plan := plan.(unanchored := plan.unanchored + [row.id]);
        continue;
      }
      var moves := CollectMoves(row.id, CitedPaths(row.anchor.value), repo, plan.repointed);
      plan := plan.(repointed := moves);
      var failure := FirstContradiction(row.anchor.value, repo);
      if failure.Some? {
        plan := plan.(contradicted := plan.contradicted + [FindingOf(row.id, failure.value, repo)]);
        continue;
      }
      if IsContradicted(row) {
        plan := plan.(healed := plan.healed + [row.id]);
      } else {
        plan := plan.(verified := plan.verified + [row.id]);
      }
    }
    assert rows[..|rows|] == rows;
  }

  // ---------- What a plan says about a row ----------

  ghost predicate Indexes(byId: map<int, Row>, rows: seq<Row>) {
    forall i :: 0 <= i < |rows| ==> rows[i].id in byId && byId[rows[i].id] == rows[i]
  }

  ghost predicate Distinct(rows: seq<Row>) {
    forall i, j :: 0 <= i < j < |rows| ==> rows[i].id != rows[j].id
  }

  ghost predicate Decides(byId: map<int, Row>, id: int, action: Action, repo: Repo) {
    id in byId && ActionFor(byId[id], repo) == Some(action)
  }

  ghost predicate Sound(plan: Plan, byId: map<int, Row>, repo: Repo) {
    && (forall i :: 0 <= i < |plan.contradicted| ==>
          Decides(byId, plan.contradicted[i].id, Contradict(EvidenceLine(plan.contradicted[i])), repo))
    && (forall i :: 0 <= i < |plan.healed| ==> Decides(byId, plan.healed[i], Heal, repo))
    && (forall i :: 0 <= i < |plan.verified| ==> Decides(byId, plan.verified[i], Verify, repo))
    && (forall i :: 0 <= i < |plan.repointed| ==>
          plan.repointed[i].id in byId && byId[plan.repointed[i].id].anchor.Some?)
  }

  // The row is on the list its action belongs to.
  ghost predicate Covers(plan: Plan, row: Row, repo: Repo) {
    match ActionFor(row, repo)
    case None => row.id in plan.unanchored
    case Some(Contradict(_)) => exists i :: 0 <= i < |plan.contradicted| && plan.contradicted[i].id == row.id
    case Some(Heal) => row.id in plan.healed
    case Some(Verify) => row.id in plan.verified
  }

  lemma RowPlanIsSound(row: Row, byId: map<int, Row>, repo: Repo)
    requires row.id in byId && byId[row.id] == row
    ensures Sound(RowPlan(row, repo), byId, repo) && Covers(RowPlan(row, repo), row, repo)
  {
    hide FirstContradiction, RepointsFor, EvidenceLine, FindingOf;
    if ActionFor(row, repo).Some? && ActionFor(row, repo).value.Contradict? {
      assert FindingOf(row.id, FirstContradiction(row.anchor.value, repo).value, repo).id == row.id by {
        FindingKeepsId(row.id, FirstContradiction(row.anchor.value, repo).value, repo);
      }
      assert RowPlan(row, repo).contradicted[0].id == row.id;
    }
  }

  lemma FindingKeepsId(id: int, c: Contradiction, repo: Repo)
    ensures FindingOf(id, c, repo).id == id
  {
  }

  lemma JoinedKeepsFindings(p: Plan, q: Plan, byId: map<int, Row>, row: Row, repo: Repo)
    ensures Sound(p, byId, repo) && Sound(q, byId, repo) ==> Sound(Joined(p, q), byId, repo)
    ensures Covers(p, row, repo) || Covers(q, row, repo) ==> Covers(Joined(p, q), row, repo)
  {
    hide ActionFor, EvidenceLine;
    var all := Joined(p, q).contradicted;
    assert forall i :: 0 <= i < |p.contradicted| ==> all[i] == p.contradicted[i];
    assert forall i :: 0 <= i < |q.contradicted| ==> all[|p.contradicted| + i] == q.contradicted[i];
  }

  lemma {:induction false} PlanIsSound(rows: seq<Row>, byId: map<int, Row>, repo: Repo)
    requires Indexes(byId, rows)
    ensures Sound(PlanOf(rows, repo), byId, repo)
    ensures forall i :: 0 <= i < |rows| ==> Covers(PlanOf(rows, repo), rows[i], repo)
  {
    if rows != [] {
      var n := |rows| - 1;
      PlanIsSound(rows[..n], byId, repo);
      RowPlanIsSound(rows[n], byId, repo);
      assert PlanOf(rows, repo) == Joined(PlanOf(rows[..n], repo), RowPlan(rows[n], repo));
      hide PlanOf, RowPlan, Sound, Covers, Joined;
      forall i | 0 <= i < |rows|
        ensures Covers(PlanOf(rows, repo), rows[i], repo)
      {
        JoinedKeepsFindings(PlanOf(rows[..n], repo), RowPlan(rows[n], repo), byId, rows[i], repo);
        assert i < n ==> rows[..n][i] == rows[i];
      }
      JoinedKeepsFindings(PlanOf(rows[..n], repo), RowPlan(rows[n], repo), byId, rows[n], repo);
    }
  }

  function RepointsIn(moves: seq<Move>, id: int): seq<Repoint> {
    if moves == [] then []
    else
      var n := |moves| - 1;
      RepointsIn(moves[..n], id) + if moves[n].id == id then [moves[n].repoint] else []
  }

  lemma {:induction false} RepointsInSplits(m1: seq<Move>, m2: seq<Move>, id: int)
    ensures RepointsIn(m1 + m2, id) == RepointsIn(m1, id) + RepointsIn(m2, id)
  {
    if m2 == [] {
      assert m1 + m2 == m1;
    } else {
      var n := |m2| - 1;
      assert (m1 + m2)[..|m1 + m2| - 1] == m1 + m2[..n];
      RepointsInSplits(m1, m2[..n], id);
    }
  }

  lemma {:induction false} RepointsInMoves(owner: int, repoints: seq<Repoint>, id: int)
    ensures RepointsIn(Moves(owner, repoints), id) == if owner == id then repoints else []
  {
    if repoints != [] {
      var n := |repoints| - 1;
      assert Moves(owner, repoints)[..n] == Moves(owner, repoints[..n]);
      RepointsInMoves(owner, repoints[..n], id);
    }
  }

  // The last row adds its own repoints.
  lemma LastRowMoves(rows: seq<Row>, id: int, repo: Repo)
    requires rows != []
    ensures var n := |rows| - 1;
      RepointsIn(PlanOf(rows, repo).repointed, id)
      == RepointsIn(PlanOf(rows[..n], repo).repointed, id) + if rows[n].id == id then RepointsFor(rows[n], repo) else []
  {
    var n := |rows| - 1;
    RowMoves(rows[n], id, repo);
    RepointsInSplits(PlanOf(rows[..n], repo).repointed, RowPlan(rows[n], repo).repointed, id);
    hide RepointsFor, RowPlan, RepointsIn;
  }

  lemma {:induction false} AbsentRowsMoveNothing(rows: seq<Row>, id: int, repo: Repo)
    requires forall i :: 0 <= i < |rows| ==> rows[i].id != id
    ensures RepointsIn(PlanOf(rows, repo).repointed, id) == []
  {
    if rows != [] {
      var n := |rows| - 1;
      assert forall i :: 0 <= i < n ==> rows[..n][i] == rows[i];
      AbsentRowsMoveNothing(rows[..n], id, repo);
      LastRowMoves(rows, id, repo);
      hide PlanOf, RepointsIn, RepointsFor;
    }
  }

  lemma {:induction false} PlanMovesEachRow(rows: seq<Row>, k: nat, repo: Repo)
    requires Distinct(rows) && k < |rows|
    ensures RepointsIn(PlanOf(rows, repo).repointed, rows[k].id) == RepointsFor(rows[k], repo)
  {
    hide PlanOf, RepointsIn, RepointsFor;
    var n := |rows| - 1;
    LastRowMoves(rows, rows[k].id, repo);
    assert forall i :: 0 <= i < n ==> rows[..n][i] == rows[i];
    if k < n {
      PlanMovesEachRow(rows[..n], k, repo);
    } else {
      AbsentRowsMoveNothing(rows[..n], rows[n].id, repo);
    }
  }

  lemma RowMoves(row: Row, id: int, repo: Repo)
    ensures RepointsIn(RowPlan(row, repo).repointed, id) == if row.id == id then RepointsFor(row, repo) else []
  {
    hide FirstContradiction, RepointsAmong, CitedPaths;
    RepointsInMoves(row.id, RepointsFor(row, repo), id);
  }

  // ---------- The run ----------

  predicate Cites(row: Row, changed: Option<set<string>>) {
    changed == None
    || (row.anchor.Some? && exists p :: p in CitedPaths(row.anchor.value) && p in changed.value)
  }

  function Candidates(rows: seq<Row>, changed: Option<set<string>>): seq<Row> {
    if rows == [] then []
    else
      var n := |rows| - 1;
      Candidates(rows[..n], changed) + if Cites(rows[n], changed) then [rows[n]] else []
  }

  function Ids(rows: seq<Row>): seq<int> {
    seq(|rows|, i requires 0 <= i < |rows| => rows[i].id)
  }

  lemma {:induction false} CandidatesAreTheCiting(rows: seq<Row>, changed: Option<set<string>>, row: Row)
    ensures row in Candidates(rows, changed) <==> row in rows && Cites(row, changed)
  {
    hide Cites;
    if rows != [] {
      CandidatesAreTheCiting(rows[..|rows| - 1], changed, row);
      assert rows == rows[..|rows| - 1] + [rows[|rows| - 1]];
    }
  }

  lemma {:induction false} CandidatesStayDistinct(rows: seq<Row>, changed: Option<set<string>>)
    requires Distinct(rows)
    ensures Distinct(Candidates(rows, changed))
  {
    hide Cites;
    if rows != [] {
      var n := |rows| - 1;
      CandidatesStayDistinct(rows[..n], changed);
      var front := Candidates(rows[..n], changed);
      forall i | 0 <= i < |front| ensures front[i].id != rows[n].id {
        CandidatesAreTheCiting(rows[..n], changed, front[i]);
        assert front[i] in front;
        var j :| 0 <= j < n && rows[..n][j] == front[i];
        assert rows[j] == front[i];
      }
    }
  }

  // The snapshot holds every row of the registry once.
  ghost predicate Lists(list: seq<Row>, rows: map<int, Row>) {
    && Distinct(list)
    && Indexes(rows, list)
    && forall id :: id in rows ==> rows[id] in list
  }

  datatype Mutation = Mutation(id: int, repoints: seq<Repoint>, action: Option<Action>)

  function Applied(m: Mutation, row: Row, repo: Repo, now: int): Row {
    Patched(row, m.repoints, m.action, repo, now).GetOr(row)
  }

  // No patch, or one whose row the schema accepts.
  predicate Passes(patched: Option<Row>, accepts: Row -> bool) {
    patched.Some? ==> accepts(patched.value)
  }

  ghost predicate AllAccepted(batch: seq<Mutation>, n: nat, rows: map<int, Row>, repo: Repo, now: int, accepts: Row -> bool)
    requires n <= |batch|
  {
    forall i :: 0 <= i < n && batch[i].id in rows ==>
      Passes(Patched(rows[batch[i].id], batch[i].repoints, batch[i].action, repo, now), accepts)
  }

  method IndexById(rows: seq<Row>) returns (byId: map<int, Row>)
    requires Distinct(rows)
    ensures Indexes(byId, rows)
    ensures forall id :: id in byId ==> byId[id] in rows && byId[id].id == id
  {
    byId := map[];
    for k := 0 to |rows|
      invariant forall i :: 0 <= i < k ==> rows[i].id in byId && byId[rows[i].id] == rows[i]
      invariant forall id :: id in byId ==> byId[id] in rows[..k] && byId[id].id == id
    {
      byId := byId[rows[k].id := rows[k]];
    }
  }

  lemma OneMoreMove(moves: seq<Move>, k: nat, id: int)
    requires k < |moves|
    ensures RepointsIn(moves[..k + 1], id)
      == RepointsIn(moves[..k], id) + if moves[k].id == id then [moves[k].repoint] else []
  {
    assert moves[..k + 1][..k] == moves[..k];
  }

  function ListFor(lists: map<int, seq<Repoint>>, id: int): seq<Repoint> {
    if id in lists then lists[id] else []
  }

  lemma MoveIsListed(moves: seq<Move>, k: nat, lists: map<int, seq<Repoint>>, next: map<int, seq<Repoint>>)
    requires k < |moves| && forall id :: ListFor(lists, id) == RepointsIn(moves[..k], id)
    requires next == lists[moves[k].id := ListFor(lists, moves[k].id) + [moves[k].repoint]]
    ensures forall id :: ListFor(next, id) == RepointsIn(moves[..k + 1], id)
  {
    hide RepointsIn;
    forall id ensures ListFor(next, id) == RepointsIn(moves[..k + 1], id) {
      OneMoreMove(moves, k, id);
    }
  }

  method RepointLists(moves: seq<Move>, byId: map<int, Row>) returns (lists: map<int, seq<Repoint>>)
    requires forall i :: 0 <= i < |moves| ==> moves[i].id in byId && byId[moves[i].id].anchor.Some?
    ensures forall id :: ListFor(lists, id) == RepointsIn(moves, id)
    ensures forall id :: id in lists ==> lists[id] != []
  {
    lists := map[];
    for k := 0 to |moves|
      invariant forall id :: ListFor(lists, id) == RepointsIn(moves[..k], id)
      invariant forall id :: id in lists ==> lists[id] != []
    {
      hide RepointsIn;
      var m := moves[k];
      ghost var before := lists;
      lists := lists[m.id := ListFor(lists, m.id) + [m.repoint]];
      MoveIsListed(moves, k, before, lists);
    }
    assert moves[..|moves|] == moves;
  }

  ghost predicate AllDecided(actions: map<int, Action>, byId: map<int, Row>, repo: Repo) {
    forall id :: id in actions ==> Decides(byId, id, actions[id], repo)
  }

  method ActionsOf(plan: Plan, ghost byId: map<int, Row>, ghost repo: Repo) returns (actions: map<int, Action>)
    requires Sound(plan, byId, repo)
    ensures AllDecided(actions, byId, repo) && AllListed(plan, actions)
  {
    hide ActionFor, EvidenceLine;
    actions := map[];
    for k := 0 to |plan.contradicted|
      invariant AllDecided(actions, byId, repo)
      invariant forall i :: 0 <= i < k ==> plan.contradicted[i].id in actions
    {
      actions := actions[plan.contradicted[k].id := Contradict(EvidenceLine(plan.contradicted[k]))];
    }
    for k := 0 to |plan.healed|
      invariant AllDecided(actions, byId, repo)
      invariant forall i :: 0 <= i < |plan.contradicted| ==> plan.contradicted[i].id in actions
      invariant forall i :: 0 <= i < k ==> plan.healed[i] in actions
    {
      actions := actions[plan.healed[k] := Heal];
    }
    for k := 0 to |plan.verified|
      invariant AllDecided(actions, byId, repo)
      invariant forall i :: 0 <= i < |plan.contradicted| ==> plan.contradicted[i].id in actions
      invariant forall i :: 0 <= i < |plan.healed| ==> plan.healed[i] in actions
      invariant forall i :: 0 <= i < k ==> plan.verified[i] in actions
    {
      actions := actions[plan.verified[k] := Verify];
    }
  }

  // The batch holds exactly the scheduled rows, each with what the planner decided for it.
  ghost predicate IsBatch(batch: seq<Mutation>, byId: map<int, Row>, repo: Repo) {
    && DistinctTargets(batch)
    && (forall i :: 0 <= i < |batch| ==> MutationFits(batch[i], byId, repo))
    && (forall id :: id in byId && Scheduled(byId[id], repo) ==> Targets(batch, id))
  }

  ghost predicate DistinctTargets(batch: seq<Mutation>) {
    forall i, j :: 0 <= i < j < |batch| ==> batch[i].id != batch[j].id
  }

  ghost predicate MutationFits(m: Mutation, byId: map<int, Row>, repo: Repo) {
    && m.id in byId
    && Scheduled(byId[m.id], repo)
    && m.repoints == RepointsFor(byId[m.id], repo)
    && m.action == ActionFor(byId[m.id], repo)
  }

  predicate ActionWrites(snapshot: Row, action: Option<Action>, headSha: string) {
    && action.Some?
    && (action.value.Heal?
        || (action.value.Contradict? && !IsContradicted(snapshot))
        || (action.value.Verify? && !VerifiedAt(snapshot, headSha)))
  }

  // The batch once all ids but those in `todo` have been looked at.
  ghost predicate BatchSoFar(batch: seq<Mutation>, todo: set<int>, byId: map<int, Row>, repo: Repo) {
    && DistinctTargets(batch)
    && (forall i :: 0 <= i < |batch| ==> batch[i].id !in todo && MutationFits(batch[i], byId, repo))
    && (forall id :: id in byId && id !in todo && Scheduled(byId[id], repo) ==> Targets(batch, id))
  }

  ghost predicate Targets(batch: seq<Mutation>, id: int) {
    exists i :: 0 <= i < |batch| && batch[i].id == id
  }

  lemma LookAtUnscheduled(batch: seq<Mutation>, todo: set<int>, id: int, byId: map<int, Row>, repo: Repo)
    requires BatchSoFar(batch, todo, byId, repo) && id in byId && !Scheduled(byId[id], repo)
    ensures BatchSoFar(batch, todo - {id}, byId, repo)
  {
    hide Scheduled, MutationFits, Targets;
  }

  lemma LookAtScheduled(batch: seq<Mutation>, todo: set<int>, m: Mutation, byId: map<int, Row>, repo: Repo)
    requires BatchSoFar(batch, todo, byId, repo) && m.id in todo && MutationFits(m, byId, repo)
    ensures BatchSoFar(batch + [m], todo - {m.id}, byId, repo)
  {
    hide Scheduled, MutationFits;
    var more := batch + [m];
    forall id | id in byId && id !in todo - {m.id} && Scheduled(byId[id], repo)
      ensures Targets(more, id)
    {
      if id == m.id {
        assert more[|batch|].id == id;
      } else {
        var i :| 0 <= i < |batch| && batch[i].id == id;
        assert more[i].id == id;
      }
    }
  }

  lemma ScheduledIff(row: Row, repo: Repo)
    ensures Scheduled(row, repo) <==> RepointsFor(row, repo) != [] || ActionWrites(row, ActionFor(row, repo), repo.headSha)
  {
    hide ActionFor, RepointsFor;
  }

  lemma FinishedBatch(batch: seq<Mutation>, byId: map<int, Row>, repo: Repo)
    requires BatchSoFar(batch, {}, byId, repo)
    ensures DistinctTargets(batch) && IsBatch(batch, byId, repo)
  {
    hide Scheduled, MutationFits;
  }

  method BuildBatch(lists: map<int, seq<Repoint>>, actions: map<int, Action>, byId: map<int, Row>, repo: Repo)
    returns (batch: seq<Mutation>)
    requires forall id :: id in byId ==> ListFor(lists, id) == RepointsFor(byId[id], repo)
    requires forall id :: id in byId ==>
      (if id in actions then Some(actions[id]) else None) == ActionFor(byId[id], repo)
    requires forall id :: id in lists || id in actions ==> id in byId
    ensures DistinctTargets(batch) && IsBatch(batch, byId, repo)
  {
    hide ActionFor, RepointsFor, BatchSoFar, Scheduled, ActionWrites, IsBatch, DistinctTargets;
    batch := [];
    var todo := lists.Keys + actions.Keys;
    NothingLookedAt(todo, lists, actions, byId, repo);
    while todo != {}
      invariant todo <= lists.Keys + actions.Keys
      invariant BatchSoFar(batch, todo, byId, repo)
      decreases todo
    {
      ghost var _ := SomeMember(todo);
      var id :| id in todo;
      var snapshot := byId[id];
      var repoints := ListFor(lists, id);
      var action := if id in actions then Some(actions[id]) else None;
      ScheduledIff(snapshot, repo);
      if repoints == [] && !ActionWrites(snapshot, action, repo.headSha) {
        LookAtUnscheduled(batch, todo, id, byId, repo);
        todo := todo - {id};
        continue;
      }
      LookAtScheduled(batch, todo, Mutation(id, repoints, action), byId, repo);
      todo := todo - {id};
      batch := batch + [Mutation(id, repoints, action)];
    }
    FinishedBatch(batch, byId, repo);
  }

  // A row without repoints and without an action is not scheduled.
  lemma NothingLookedAt(todo: set<int>, lists: map<int, seq<Repoint>>, actions: map<int, Action>, byId: map<int, Row>,
                        repo: Repo)
    requires todo == lists.Keys + actions.Keys
    requires forall id :: id in byId ==> ListFor(lists, id) == RepointsFor(byId[id], repo)
    requires forall id :: id in byId ==>
      (if id in actions then Some(actions[id]) else None) == ActionFor(byId[id], repo)
    ensures BatchSoFar([], todo, byId, repo)
  {
    hide ActionFor, RepointsFor, MutationFits, Targets;
    forall id | id in byId && id !in todo ensures !Scheduled(byId[id], repo) {
      ScheduledIff(byId[id], repo);
    }
  }

  // Of the listed rows, those that cite a changed path are planned; the batch holds what would be written.
  method PlanBatch(list: seq<Row>, changed: Option<set<string>>, repo: Repo, ghost rows: map<int, Row>)
    returns (plan: Plan, batch: seq<Mutation>)
    requires Lists(list, rows) && forall id :: id in rows ==> rows[id].id == id
    ensures plan == PlanOf(Candidates(list, changed), repo)
    ensures DistinctTargets(batch) && IsBatch(batch, Citing(rows, changed), repo)
  {
    var candidates := Candidates(list, changed);
    CandidatesStayDistinct(list, changed);
    hide Candidates, PlanOf;
    plan := VerifyAnchors(candidates, repo);
    var byId := IndexById(candidates);
    ByIdHoldsTheCiting(list, changed, rows, byId);
    batch := BatchOf(plan, candidates, byId, repo);
  }

  method BatchOf(plan: Plan, ghost candidates: seq<Row>, byId: map<int, Row>, repo: Repo) returns (batch: seq<Mutation>)
    requires plan == PlanOf(candidates, repo) && Distinct(candidates) && Indexes(byId, candidates)
    requires forall id :: id in byId ==> byId[id] in candidates && byId[id].id == id
    ensures DistinctTargets(batch) && IsBatch(batch, byId, repo)
  {
    PlanIsSound(candidates, byId, repo);
    MovesComeFromRows(plan, byId, repo);
    hide Sound, ActionFor, RepointsFor, PlanOf, AllListed, AllDecided;
    var lists := RepointLists(plan.repointed, byId);
    var actions := ActionsOf(plan, byId, repo);
    ListsAreTheRows(candidates, byId, lists, repo);
    ActionsAreTheRows(candidates, byId, actions, repo);
    batch := BuildBatch(lists, actions, byId, repo);
  }

  lemma MovesComeFromRows(plan: Plan, byId: map<int, Row>, repo: Repo)
    requires Sound(plan, byId, repo)
    ensures forall i :: 0 <= i < |plan.repointed| ==>
      plan.repointed[i].id in byId && byId[plan.repointed[i].id].anchor.Some?
  {
  }

  ghost function Citing(rows: map<int, Row>, changed: Option<set<string>>): map<int, Row> {
    map id | id in rows && Cites(rows[id], changed) :: rows[id]
  }

  // Another writer's closes, by row.
  function ClosedAt(closed: map<int, int>, id: int): Option<int> {
    if id in closed then Some(closed[id]) else None
  }

  class MemoryRegistry {
    var rows: map<int, Row>
    ghost var batches: nat

    ghost predicate Valid()
      reads this
    {
      forall id :: id in rows ==> rows[id].id == id
    }

    method ListMemoryEntries() returns (list: seq<Row>)
      requires Valid()
      ensures Lists(list, rows)
    {
      list := [];
      var todo := rows.Keys;
      while todo != {}
        invariant todo <= rows.Keys
        invariant Distinct(list) && Indexes(rows, list)
        invariant forall i :: 0 <= i < |list| ==> list[i].id !in todo
        invariant forall id :: id in rows && id !in todo ==> rows[id] in list
        decreases todo
      {
        ghost var _ := SomeMember(todo);
        var id :| id in todo;
        todo := todo - {id};
        list := list + [rows[id]];
      }
    }

    // What other writers do while the run looks at the code.
    method Overtake(closed: map<int, int>, gone: set<int>)
      requires Valid()
      modifies this
      ensures Valid() && batches == old(batches)
      ensures rows.Keys == old(rows).Keys - gone
      ensures forall id :: id in rows ==> rows[id] == Close(old(rows)[id], ClosedAt(closed, id))
    {
      rows := map id | id in rows && id !in gone :: Close(rows[id], ClosedAt(closed, id));
    }

    // Every mutation patches the row it finds now, and a row that vanished is skipped. One patched row that the
    // schema does not accept stops the batch before anything is written.
    method ApplyMutations(batch: seq<Mutation>, repo: Repo, now: int, accepts: Row -> bool) returns (done: bool)
      requires Valid()
      requires DistinctTargets(batch)
      modifies this
      ensures Valid() && rows.Keys == old(rows).Keys
      ensures done <==> AllAccepted(batch, |batch|, old(rows), repo, now, accepts)
      ensures batches == old(batches) + if done then 1 else 0
      ensures !done ==> rows == old(rows)
      ensures done ==> forall i :: 0 <= i < |batch| && batch[i].id in rows ==>
        rows[batch[i].id] == Applied(batch[i], old(rows)[batch[i].id], repo, now)
      ensures done ==> forall id :: id in rows && (forall i :: 0 <= i < |batch| ==> batch[i].id != id) ==>
        rows[id] == old(rows)[id]
    {
      hide Patched;
      var staged := rows;
      for k := 0 to |batch|
        invariant staged.Keys == rows.Keys && forall id :: id in staged ==> staged[id].id == id
        invariant AllAccepted(batch, k, rows, repo, now, accepts)
        invariant forall i :: 0 <= i < k && batch[i].id in staged ==>
          staged[batch[i].id] == Applied(batch[i], rows[batch[i].id], repo, now)
        invariant forall id :: id in staged && (forall i :: 0 <= i < k ==> batch[i].id != id) ==>
          staged[id] == rows[id]
        modifies {}
      {
        var m := batch[k];
        if m.id in staged {
          PatchKeepsId(staged[m.id], m, repo, now);
          var patched := Patched(staged[m.id], m.repoints, m.action, repo, now);
          if patched.Some? {
            if !accepts(patched.value) {
              return false;
            }
            staged := staged[m.id := patched.value];
          }
        }
      }
      rows := staged;
      batches := batches + 1;
      return true;
    }

    /** One verify run over the rows that cite a changed path, or over all of them. `git` is the state git and
        the worktree answer from, if git answers at all; the question for the blobs of rename targets may fail
        alone. `closed` and `gone` are what other writers did between the snapshot and the batch. A run that is not
        done has thrown: the schema refused a row. */
    method RunVerify(git: Option<Git>, targetsAnswer: bool, changed: Option<set<string>>, now: int,
                     closed: map<int, int>, gone: set<int>, accepts: Row -> bool)
      returns (done: bool, plan: Plan, ghost listed: seq<Row>)
      requires Valid()
      modifies this
      ensures Valid() && Lists(listed, old(rows))
      ensures var repo := RepoFor(git, Candidates(listed, changed), targetsAnswer);
        && plan == (if repo == None then EmptyPlan.(unanchored := Ids(Candidates(listed, changed)))
                    else PlanOf(Candidates(listed, changed), repo.value))
        && RunLeaves(old(rows), rows, if done then repo else None, changed, now, closed, gone)
        && (done <==> (repo.Some? ==> RunAccepted(old(rows), rows.Keys, repo.value, changed, now, closed, accepts)))
        && batches == old(batches) + if done && repo.Some? && WritesSome(old(rows), changed, repo.value) then 1 else 0
    {
      hide PlanOf, Candidates, RunRow, WritesSome, Cites, IsBatch, DistinctTargets, Applied, RepoOf;
      var list := ListMemoryEntries();
      listed := list;
      var candidates := Candidates(list, changed);
      Overtake(closed, gone);
      if git == None {
        return true, EmptyPlan.(unanchored := Ids(candidates)), listed;
      }
      var repo := GatherRepo(candidates, git.value, targetsAnswer);
      var batch;
      plan, batch := PlanBatch(list, changed, repo, old(rows));
      ghost var current := rows;
      done := true;
      if |batch| > 0 {
        done := ApplyMutations(batch, repo, now, accepts);
      }
      AcceptedIsTheRun(old(rows), changed, current, batch, repo, now, closed, accepts);
      BatchWrites(old(rows), changed, batch, repo);
      if done {
        BatchIsTheRun(old(rows), changed, current, rows, batch, repo, now);
      }
    }
  }

  // What a run knows; nothing when git does not answer.
  function RepoFor(git: Option<Git>, rows: seq<Row>, targetsAnswer: bool): Option<Repo> {
    if git == None then None else Some(RepoOf(rows, git.value, targetsAnswer))
  }

  // Each row in scope becomes the patch of what it is now under what was planned on the snapshot.
  ghost predicate RunLeaves(before: map<int, Row>, after: map<int, Row>, repo: Option<Repo>, changed: Option<set<string>>,
                            now: int, closed: map<int, int>, gone: set<int>) {
    && after.Keys == before.Keys - gone
    && forall id :: id in after ==>
         var current := Close(before[id], ClosedAt(closed, id));
         after[id] == if repo.Some? && Cites(before[id], changed) then RunRow(before[id], current, repo.value, now)
                      else current
  }

  ghost predicate WritesSome(rows: map<int, Row>, changed: Option<set<string>>, repo: Repo) {
    exists id :: id in rows && Cites(rows[id], changed) && Scheduled(rows[id], repo)
  }

  // Every row that the run would write passes the schema.
  ghost predicate RunAccepted(before: map<int, Row>, found: set<int>, repo: Repo, changed: Option<set<string>>, now: int,
                              closed: map<int, int>, accepts: Row -> bool) {
    forall id :: id in before && id in found && Cites(before[id], changed) && Scheduled(before[id], repo) ==>
      var current := Close(before[id], ClosedAt(closed, id));
      Passes(Patched(current, RepointsFor(before[id], repo), ActionFor(before[id], repo), repo, now), accepts)
  }

  lemma AcceptedIsTheRun(snapshot: map<int, Row>, changed: Option<set<string>>, current: map<int, Row>,
                         batch: seq<Mutation>, repo: Repo, now: int, closed: map<int, int>, accepts: Row -> bool)
    requires forall id :: id in current ==> (id in snapshot && current[id] == Close(snapshot[id], ClosedAt(closed, id)))
    requires IsBatch(batch, Citing(snapshot, changed), repo)
    ensures AllAccepted(batch, |batch|, current, repo, now, accepts)
      <==> RunAccepted(snapshot, current.Keys, repo, changed, now, closed, accepts)
  {
    hide Scheduled, Cites, ActionFor, RepointsFor, Patched, Passes, Close, ClosedAt;
    var byId := Citing(snapshot, changed);
    if AllAccepted(batch, |batch|, current, repo, now, accepts) {
      forall id | id in snapshot && id in current.Keys && Cites(snapshot[id], changed) && Scheduled(snapshot[id], repo)
        ensures Passes(Patched(current[id], RepointsFor(snapshot[id], repo), ActionFor(snapshot[id], repo), repo, now), accepts)
      {
        assert id in byId && byId[id] == snapshot[id];
        var i :| 0 <= i < |batch| && batch[i].id == id;
        assert MutationFits(batch[i], byId, repo);
      }
    } else {
      var i :| 0 <= i < |batch| && batch[i].id in current
        && !Passes(Patched(current[batch[i].id], batch[i].repoints, batch[i].action, repo, now), accepts);
      assert MutationFits(batch[i], byId, repo);
      assert batch[i].id in snapshot;
    }
  }

  lemma BatchWrites(snapshot: map<int, Row>, changed: Option<set<string>>, batch: seq<Mutation>, repo: Repo)
    requires IsBatch(batch, Citing(snapshot, changed), repo)
    ensures |batch| > 0 <==> WritesSome(snapshot, changed, repo)
  {
    hide Scheduled, Cites, ActionFor, RepointsFor;
    var byId := Citing(snapshot, changed);
    if |batch| > 0 {
      assert MutationFits(batch[0], byId, repo);
    }
    if WritesSome(snapshot, changed, repo) {
      var id :| id in snapshot && Cites(snapshot[id], changed) && Scheduled(snapshot[id], repo);
      assert id in byId && byId[id] == snapshot[id];
    }
  }

  lemma BatchIsTheRun(snapshot: map<int, Row>, changed: Option<set<string>>, current: map<int, Row>,
                      after: map<int, Row>, batch: seq<Mutation>, repo: Repo, now: int)
    requires forall id :: id in current ==> id in snapshot
    requires IsBatch(batch, Citing(snapshot, changed), repo) && after.Keys == current.Keys
    requires forall i :: 0 <= i < |batch| && batch[i].id in after ==>
      after[batch[i].id] == Applied(batch[i], current[batch[i].id], repo, now)
    requires forall id :: id in after && (forall i :: 0 <= i < |batch| ==> batch[i].id != id) ==>
      after[id] == current[id]
    ensures forall id :: id in after ==>
      after[id] == if Cites(snapshot[id], changed) then RunRow(snapshot[id], current[id], repo, now) else current[id]
  {
    hide Scheduled, Cites, ActionFor, RepointsFor, Patched;
    var byId := Citing(snapshot, changed);
    forall id | id in after
      ensures after[id] == if Cites(snapshot[id], changed) then RunRow(snapshot[id], current[id], repo, now) else current[id]
    {
      if i :| 0 <= i < |batch| && batch[i].id == id {
        assert MutationFits(batch[i], byId, repo);
        assert byId[id] == snapshot[id] && Cites(snapshot[id], changed);
      } else if Cites(snapshot[id], changed) {
        assert id in byId && byId[id] == snapshot[id];
        assert !Scheduled(snapshot[id], repo);
      }
    }
  }

  lemma PatchKeepsId(row: Row, m: Mutation, repo: Repo, now: int)
    ensures Applied(m, row, repo, now).id == row.id
  {
    hide RewriteAnchor, EvidenceLine, Sha7;
  }

  lemma ByIdHoldsTheCiting(list: seq<Row>, changed: Option<set<string>>, rows: map<int, Row>, byId: map<int, Row>)
    requires Lists(list, rows) && Indexes(byId, Candidates(list, changed))
    requires forall id :: id in byId ==> byId[id] in Candidates(list, changed) && byId[id].id == id
    requires forall id :: id in rows ==> rows[id].id == id
    ensures byId == Citing(rows, changed)
  {
    hide Cites, Candidates;
    var candidates := Candidates(list, changed);
    forall id | id in byId ensures id in rows && byId[id] == rows[id] && Cites(rows[id], changed) {
      CandidatesAreTheCiting(list, changed, byId[id]);
      var j :| 0 <= j < |list| && list[j] == byId[id];
    }
    forall id | id in rows && Cites(rows[id], changed) ensures id in byId {
      CandidatesAreTheCiting(list, changed, rows[id]);
      var j :| 0 <= j < |candidates| && candidates[j] == rows[id];
    }
  }

  lemma ListsAreTheRows(candidates: seq<Row>, byId: map<int, Row>, lists: map<int, seq<Repoint>>, repo: Repo)
    requires Distinct(candidates) && Indexes(byId, candidates)
    requires forall id :: id in byId ==> byId[id] in candidates && byId[id].id == id
    requires forall id :: ListFor(lists, id) == RepointsIn(PlanOf(candidates, repo).repointed, id)
    requires forall id :: id in lists ==> lists[id] != []
    ensures forall id :: id in byId ==> ListFor(lists, id) == RepointsFor(byId[id], repo)
    ensures forall id :: id in lists ==> id in byId
  {
    hide RepointsFor, PlanOf;
    forall id | id in byId ensures RepointsIn(PlanOf(candidates, repo).repointed, id) == RepointsFor(byId[id], repo) {
      var j :| 0 <= j < |candidates| && candidates[j] == byId[id];
      PlanMovesEachRow(candidates, j, repo);
    }
    forall id | id in lists ensures id in byId {
      if id !in byId {
        AbsentRowsMoveNothing(candidates, id, repo);
        assert false;
      }
    }
  }

  ghost predicate AllListed(plan: Plan, actions: map<int, Action>) {
    && (forall i :: 0 <= i < |plan.contradicted| ==> plan.contradicted[i].id in actions)
    && (forall i :: 0 <= i < |plan.healed| ==> plan.healed[i] in actions)
    && (forall i :: 0 <= i < |plan.verified| ==> plan.verified[i] in actions)
  }

  lemma CoveredRowIsListed(plan: Plan, actions: map<int, Action>, row: Row, repo: Repo)
    requires AllListed(plan, actions) && Covers(plan, row, repo) && ActionFor(row, repo).Some?
    ensures row.id in actions
  {
    hide ActionFor;
    match ActionFor(row, repo)
    case Some(Contradict(_)) =>
      var i :| 0 <= i < |plan.contradicted| && plan.contradicted[i].id == row.id;
    case Some(Heal) =>
      var i :| 0 <= i < |plan.healed| && plan.healed[i] == row.id;
    case Some(Verify) =>
      var i :| 0 <= i < |plan.verified| && plan.verified[i] == row.id;
  }

  lemma ActionsAreTheRows(candidates: seq<Row>, byId: map<int, Row>, actions: map<int, Action>, repo: Repo)
    requires Indexes(byId, candidates) && AllDecided(actions, byId, repo)
    requires forall id :: id in byId ==> byId[id] in candidates && byId[id].id == id
    requires AllListed(PlanOf(candidates, repo), actions)
    ensures forall id :: id in byId ==>
      (if id in actions then Some(actions[id]) else None) == ActionFor(byId[id], repo)
    ensures forall id :: id in actions ==> id in byId
  {
    PlanIsSound(candidates, byId, repo);
    hide ActionFor, PlanOf, Sound, AllListed, Covers;
    forall id | id in byId
      ensures (if id in actions then Some(actions[id]) else None) == ActionFor(byId[id], repo)
    {
      var j :| 0 <= j < |candidates| && candidates[j] == byId[id];
      if ActionFor(byId[id], repo).Some? {
        CoveredRowIsListed(PlanOf(candidates, repo), actions, byId[id], repo);
      }
    }
  }
}
