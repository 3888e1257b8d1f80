/** Verifying twice at one state of git and the worktree (runVerify in core/src/code-truth.ts). */
module CodeTruthRepeat {
  import opened Prelude
  import opened CodeTruth
  import opened CodeTruthGit
  import opened CodeTruthRunner

  ghost predicate ValidRows(rows: map<int, Row>) {
    forall id :: id in rows ==> rows[id].id == id
  }

  // What one run makes of the rows, as its contract states it.
  ghost predicate OneRun(before: map<int, Row>, after: map<int, Row>, listed: seq<Row>, git: Git, targetsAnswer: bool,
                         changed: Option<set<string>>, now: int, closed: map<int, int>, gone: set<int>) {
    && ValidRows(before) && ValidRows(after) && Lists(listed, before)
    && RunLeaves(before, after, Some(RepoOf(Candidates(listed, changed), git, targetsAnswer)), changed, now, closed, gone)
  }

  // A later run at the same git, over any of the rows, has nothing to write.
  ghost predicate Idle(rows: map<int, Row>, listed: seq<Row>, git: Git, targetsAnswer: bool, changed: Option<set<string>>) {
    !WritesSome(rows, changed, RepoOf(Candidates(listed, changed), git, targetsAnswer))
  }

  // ---------- Verdicts, straight from git and the worktree ----------

  predicate SymbolHolds(s: SymbolRef, renames: map<string, string>, git: Git) {
    var found := Judged(git, EffectivePath(renames, s.path));
    || found.Unjudged?
    || (found.Extracted? && exists b :: b in found.blocks && b.name == Some(s.name) && b.contentHash == s.contentHash)
  }

  ghost predicate AnchorHolds(a: CodeAnchor, renames: map<string, string>, git: Git) {
    && (forall f :: f in a.files ==> f in git.tree || f in renames)
    && (forall s :: s in a.symbols ==> SymbolHolds(s, renames, git))
  }

  lemma CitedAreAsked(rows: seq<Row>, row: Row, p: string)
    requires row in rows && row.anchor.Some? && p in CitedPaths(row.anchor.value)
    ensures p in PathsOf(rows)
  {
    var i :| 0 <= i < |rows| && rows[i] == row;
  }

  lemma FilesAreCited(a: CodeAnchor, f: string)
    requires f in a.files
    ensures f in CitedPaths(a)
  {
    var paths := a.files + SymbolPaths(a.symbols);
    var i :| 0 <= i < |a.files| && a.files[i] == f;
    assert paths[i] == f;
    WithoutRepeatsKeepsMembers(paths, f);
  }

  lemma SymbolIsJudged(rows: seq<Row>, git: Git, targetsAnswer: bool, row: Row, s: SymbolRef)
    requires row in rows && row.anchor.Some? && s in row.anchor.value.symbols
    ensures Stands(s, RepoOf(rows, git, targetsAnswer)) <==> SymbolHolds(s, RenamesOf(rows, git), git)
  {
    hide RenamesOf, AttributionOf, BlobsOf;
    var renames := RenamesOf(rows, git);
    var i :| 0 <= i < |rows| && rows[i] == row;
    var j :| 0 <= j < |row.anchor.value.symbols| && row.anchor.value.symbols[j] == s;
    assert EffectivePath(renames, rows[i].anchor.value.symbols[j].path) in SymbolPathsOf(rows, renames);
  }

  // The run's record says of a candidate what git and the worktree say.
  lemma RecordTellsTruth(rows: seq<Row>, git: Git, targetsAnswer: bool, row: Row)
    requires row in rows && row.anchor.Some?
    ensures FirstContradiction(row.anchor.value, RepoOf(rows, git, targetsAnswer)) == None
      <==> AnchorHolds(row.anchor.value, RenamesOf(rows, git), git)
  {
    var a, repo := row.anchor.value, RepoOf(rows, git, targetsAnswer);
    AnchorStandsIff(a, repo);
    forall f | f in a.files ensures f in repo.blobs <==> f in git.tree {
      FilesAreCited(a, f);
      CitedAreAsked(rows, row, f);
    }
    forall s | s in a.symbols ensures Stands(s, repo) <==> SymbolHolds(s, RenamesOf(rows, git), git) {
      SymbolIsJudged(rows, git, targetsAnswer, row, s);
    }
    hide FirstContradiction, Stands, SymbolHolds, PathsOf, BlobsOf, DryRepo, AttributionOf;
    assert repo.renames == RenamesOf(rows, git) by {
      RecordHasRenames(rows, git, targetsAnswer);
    }
  }

  lemma RecordHasRenames(rows: seq<Row>, git: Git, targetsAnswer: bool)
    ensures RepoOf(rows, git, targetsAnswer).renames == RenamesOf(rows, git)
    ensures RepoOf(rows, git, targetsAnswer).headSha == git.headSha
  {
  }

  // Following renames whose targets are there keeps the verdict.
  lemma MovedAnchorHolds(a: CodeAnchor, repo: Repo, git: Git)
    requires forall p :: p in repo.renames ==> repo.renames[p] in git.tree
    ensures AnchorHolds(EffectiveAnchor(a, repo), map[], git) <==> AnchorHolds(a, repo.renames, git)
  {
    MovedFilesHold(a, repo, git);
    MovedSymbolsHold(a, repo, git);
    hide SymbolHolds, EffectiveAnchor;
  }

  lemma MovedFilesHold(a: CodeAnchor, repo: Repo, git: Git)
    requires forall p :: p in repo.renames ==> repo.renames[p] in git.tree
    ensures (forall f :: f in EffectiveAnchor(a, repo).files ==> f in git.tree)
      <==> forall f :: f in a.files ==> f in git.tree || f in repo.renames
  {
    var files := EffectiveAnchor(a, repo).files;
    forall i | 0 <= i < |a.files| ensures files[i] in git.tree <==> a.files[i] in git.tree || a.files[i] in repo.renames {
      assert files[i] == EffectivePath(repo.renames, a.files[i]);
    }
    assert forall i :: 0 <= i < |a.files| ==> a.files[i] in a.files && files[i] in files;
  }

  lemma MovedSymbolsHold(a: CodeAnchor, repo: Repo, git: Git)
    ensures (forall s :: s in EffectiveAnchor(a, repo).symbols ==> SymbolHolds(s, map[], git))
      <==> forall s :: s in a.symbols ==> SymbolHolds(s, repo.renames, git)
  {
    var symbols := EffectiveAnchor(a, repo).symbols;
    forall i | 0 <= i < |a.symbols|
      ensures SymbolHolds(symbols[i], map[], git) <==> SymbolHolds(a.symbols[i], repo.renames, git)
    {
      assert symbols[i] == a.symbols[i].(path := EffectivePath(repo.renames, a.symbols[i].path));
    }
    hide SymbolHolds;
    assert forall i :: 0 <= i < |a.symbols| ==> a.symbols[i] in a.symbols && symbols[i] in symbols;
  }

  // ---------- The rows after one run ----------

  lemma CandidatesOfRegistry(listed: seq<Row>, rows: map<int, Row>, changed: Option<set<string>>, row: Row)
    requires Lists(listed, rows) && ValidRows(rows)
    ensures row in Candidates(listed, changed) <==> row.id in rows && rows[row.id] == row && Cites(row, changed)
  {
    hide Cites, Candidates;
    CandidatesAreTheCiting(listed, changed, row);
    if row in listed {
      var i :| 0 <= i < |listed| && listed[i] == row;
    }
  }

  // A row the run was about: where its anchor went, and what its verdict is now.
  ghost predicate Ran(before: Row, after: Row, repo: Repo) {
    && after.id == before.id
    && after.anchor == (if before.anchor.Some? then Some(EffectiveAnchor(before.anchor.value, repo)) else None)
    && (before.anchor.Some? ==>
          if FirstContradiction(before.anchor.value, repo).Some? then IsContradicted(after)
          else !IsContradicted(after) && VerifiedAt(after, repo.headSha))
  }

  lemma RowsHaveRun(before: map<int, Row>, after: map<int, Row>, listed: seq<Row>, git: Git, targetsAnswer: bool,
                    changed: Option<set<string>>, now: int, closed: map<int, int>, gone: set<int>, id: int)
    requires OneRun(before, after, listed, git, targetsAnswer, changed, now, closed, gone) && Truthful(git)
    requires id in after && Cites(after[id], changed)
    ensures id in before && Cites(before[id], changed)
    ensures Ran(before[id], after[id], RepoOf(Candidates(listed, changed), git, targetsAnswer))
  {
    var rows := Candidates(listed, changed);
    var repo := RepoOf(rows, git, targetsAnswer);
    var current := Close(before[id], ClosedAt(closed, id));
    RecordHasRenames(rows, git, targetsAnswer);
    RenamesAreMissing(rows, git, targetsAnswer);
    hide RunRow, Candidates, FirstContradiction, RepoOf, RenamesOf, EffectiveAnchor, CitedPaths, MissingOf;
    if Cites(before[id], changed) {
      RunMovesTheAnchor(before[id], current, repo, now);
      if before[id].anchor.Some? {
        RunSettlesTheVerdict(before[id], current, repo, now);
      }
    }
  }

  // ---------- The second run ----------

  // What the anchors of the second run's candidates have behind them.
  ghost predicate CameFrom(second: seq<Row>, first: seq<Row>, repo: Repo) {
    forall i :: 0 <= i < |second| ==> exists j :: 0 <= j < |first| && Ran(first[j], second[i], repo)
  }

  lemma MovedPathComesFrom(a: CodeAnchor, repo: Repo, p: string)
    requires p in CitedPaths(EffectiveAnchor(a, repo))
    ensures exists q :: q in CitedPaths(a) && EffectivePath(repo.renames, q) == p
  {
    var b := EffectiveAnchor(a, repo);
    var paths, moved := a.files + SymbolPaths(a.symbols), b.files + SymbolPaths(b.symbols);
    WithoutRepeatsKeepsMembers(moved, p);
    var i :| 0 <= i < |moved| && moved[i] == p;
    WithoutRepeatsKeepsMembers(paths, paths[i]);
    assert EffectivePath(repo.renames, paths[i]) == p;
    assert paths[i] in paths;
  }

  // A path still missing after the run was cited before it, and was not renamed.
  lemma StillMissing(before: Row, after: Row, first: seq<Row>, git: Git, targetsAnswer: bool, p: string)
    requires Truthful(git) && before in first && Ran(before, after, RepoOf(first, git, targetsAnswer))
    requires after.anchor.Some? && p in CitedPaths(after.anchor.value) && p !in git.tree
    ensures before.anchor.Some? && p in CitedPaths(before.anchor.value) && p !in RenamesOf(first, git)
    ensures p in MissingOf(first, git)
  {
    var repo := RepoOf(first, git, targetsAnswer);
    RecordHasRenames(first, git, targetsAnswer);
    RenamesAreMissing(first, git, targetsAnswer);
    hide RepoOf, RenamesOf, FirstContradiction, EffectiveAnchor, CitedPaths, PathsOf;
    var a := before.anchor.value;
    MovedPathComesFrom(a, repo, p);
    var q :| q in CitedPaths(a) && EffectivePath(repo.renames, q) == p;
    assert q == p;
    CitedAreAsked(first, before, p);
  }

  /** The second run finds no renames: every path it could rename was moved by the first. */
  lemma NoRenamesAgain(first: seq<Row>, second: seq<Row>, git: Git, targetsAnswer: bool)
    requires Truthful(git) && CameFrom(second, first, RepoOf(first, git, targetsAnswer))
    ensures RenamesOf(second, git) == map[]
  {
    var repo := RepoOf(first, git, targetsAnswer);
    forall p ensures p !in RenamesOf(second, git) {
      if p in RenamesOf(second, git) {
        PathIsNotRenamedAgain(first, second, git, targetsAnswer, p);
        assert false;
      }
    }
  }

  lemma PathIsNotRenamedAgain(first: seq<Row>, second: seq<Row>, git: Git, targetsAnswer: bool, p: string)
    requires Truthful(git) && CameFrom(second, first, RepoOf(first, git, targetsAnswer))
    ensures p !in RenamesOf(second, git)
  {
    var repo := RepoOf(first, git, targetsAnswer);
    var heads, heads1 := HeadsOf(second, git), HeadsOf(first, git);
    RenamedAlongIff(heads, git, MissingOf(second, git), p);
    RenamedAlongIff(heads1, git, MissingOf(first, git), p);
    if p in MissingOf(second, git) {
      if k :| 0 <= k < |heads| && p in LastTargets(DiffOf(git, heads[k])) {
        HeadWasAsked(first, second, git, targetsAnswer, heads[k]);
        var k1 :| 0 <= k1 < |heads1| && heads1[k1] == heads[k];
        var i :| 0 <= i < |second| && second[i].anchor.Some? && p in CitedPaths(second[i].anchor.value);
        var j :| 0 <= j < |first| && Ran(first[j], second[i], repo);
        StillMissing(first[j], second[i], first, git, targetsAnswer, p);
      }
    }
  }

  lemma HeadWasAsked(first: seq<Row>, second: seq<Row>, git: Git, targetsAnswer: bool, head: string)
    requires Truthful(git) && CameFrom(second, first, RepoOf(first, git, targetsAnswer))
    requires head in HeadsOf(second, git)
    ensures head in HeadsOf(first, git)
  {
    var repo := RepoOf(first, git, targetsAnswer);
    HeadsAreTheMissing(second, git, head);
    HeadsAreTheMissing(first, git, head);
    hide HeadsOf, CitedPaths;
    var i :| 0 <= i < |second| && AsksHead(second[i], git, head);
    var j :| 0 <= j < |first| && Ran(first[j], second[i], repo);
    var q :| q in CitedPaths(second[i].anchor.value) && q !in git.tree;
    StillMissing(first[j], second[i], first, git, targetsAnswer, q);
    assert AsksHead(first[j], git, head);
  }

  // Nothing is scheduled for a row the first run was about.
  lemma NothingScheduledAgain(before: Row, after: Row, first: seq<Row>, second: seq<Row>, git: Git, t1: bool, t2: bool)
    requires Truthful(git) && CameFrom(second, first, RepoOf(first, git, t1))
    requires before in first && after in second && Ran(before, after, RepoOf(first, git, t1))
    ensures !Scheduled(after, RepoOf(second, git, t2))
  {
    var repo1, repo2 := RepoOf(first, git, t1), RepoOf(second, git, t2);
    RecordHasRenames(first, git, t1);
    RecordHasRenames(second, git, t2);
    NoRenamesAgain(first, second, git, t1);
    RenamesAreMissing(first, git, t1);
    if after.anchor.Some? {
      RecordTellsTruth(first, git, t1, before);
      RecordTellsTruth(second, git, t2, after);
      MovedAnchorHolds(before.anchor.value, repo1, git);
      NoRepointsWithoutRenames(CitedPaths(after.anchor.value), repo2);
    }
    hide FirstContradiction, RepoOf, RenamesOf, EffectiveAnchor, CitedPaths, AnchorHolds, RepointsAmong, EvidenceLine;
  }

  lemma SecondRunIsIdle(before: map<int, Row>, after: map<int, Row>, l1: seq<Row>, l2: seq<Row>, git: Git, t1: bool, t2: bool,
                        changed: Option<set<string>>, now: int, closed: map<int, int>, gone: set<int>)
    requires OneRun(before, after, l1, git, t1, changed, now, closed, gone) && Truthful(git) && Lists(l2, after)
    ensures Idle(after, l2, git, t2, changed)
  {
    var first, second := Candidates(l1, changed), Candidates(l2, changed);
    var repo1 := RepoOf(first, git, t1);
    hide Candidates, Cites, RepoOf, Scheduled, Ran, RunLeaves;
    forall i | 0 <= i < |second|
      ensures exists j :: 0 <= j < |first| && Ran(first[j], second[i], repo1)
    {
      var j := WhereFrom(before, after, l1, l2, git, t1, changed, now, closed, gone, second[i]);
    }
    forall id | id in after && Cites(after[id], changed)
      ensures !Scheduled(after[id], RepoOf(second, git, t2))
    {
      CandidatesOfRegistry(l2, after, changed, after[id]);
      var j := WhereFrom(before, after, l1, l2, git, t1, changed, now, closed, gone, after[id]);
      NothingScheduledAgain(first[j], after[id], first, second, git, t1, t2);
    }
  }

  lemma WhereFrom(before: map<int, Row>, after: map<int, Row>, l1: seq<Row>, l2: seq<Row>, git: Git, t1: bool,
                  changed: Option<set<string>>, now: int, closed: map<int, int>, gone: set<int>, row: Row)
    returns (j: nat)
    requires OneRun(before, after, l1, git, t1, changed, now, closed, gone) && Truthful(git) && Lists(l2, after)
    requires row in Candidates(l2, changed)
    ensures j < |Candidates(l1, changed)|
    ensures Ran(Candidates(l1, changed)[j], row, RepoOf(Candidates(l1, changed), git, t1))
  {
    var first := Candidates(l1, changed);
    CandidatesOfRegistry(l2, after, changed, row);
    hide Candidates, Cites, RepoOf, Ran;
    RowsHaveRun(before, after, l1, git, t1, changed, now, closed, gone, row.id);
    CandidatesOfRegistry(l1, before, changed, before[row.id]);
    j :| 0 <= j < |first| && first[j] == before[row.id];
  }

  // ---------- Exactly when ----------

  ghost predicate AlwaysIdleAfterOneRun(git: Git) {
    forall before, after, l1, l2, t1, t2, changed, now, closed, gone ::
      OneRun(before, after, l1, git, t1, changed, now, closed, gone) && Lists(l2, after) ==> Idle(after, l2, git, t2, changed)
  }

  function HeadRow(head: string, path: string): Row {
    FileRow(path).(anchor := Some(CodeAnchor(head, [path], [])))
  }

  lemma OneRowAsks(row: Row, head: string, path: string, git: Git)
    requires row.anchor == Some(CodeAnchor(head, [path], [])) && path !in git.tree
    ensures var targets := LastTargets(DiffOf(git, head));
      RenamesOf([row], git) == if path in targets then map[path := targets[path]] else map[]
  {
    OneMissingPath(row, head, path, git);
    OneHead(row, head, path, git);
    OneOverlay(head, git, path);
    hide HeadsOf, MissingOf, RenamesAlong, LastTargets, DiffOf;
  }

  lemma OneMissingPath(row: Row, head: string, path: string, git: Git)
    requires row.anchor == Some(CodeAnchor(head, [path], [])) && path !in git.tree
    ensures MissingOf([row], git) == {path} && CitesMissing(row, git)
  {
    OneCitedPath(head, path);
    hide CitedPaths;
    assert path in CitedPaths(row.anchor.value);
    assert PathsOf([row]) == {path} by {
      forall p ensures p in PathsOf([row]) <==> p == path {
        assert [row][0] == row;
        assert p in PathsOf([row]) <==> p in CitedPaths(row.anchor.value) by {
          if p in CitedPaths(row.anchor.value) {
            assert p in CitedPaths([row][0].anchor.value);
          }
        }
      }
    }
  }

  lemma OneHead(row: Row, head: string, path: string, git: Git)
    requires row.anchor == Some(CodeAnchor(head, [path], [])) && CitesMissing(row, git)
    ensures HeadsOf([row], git) == [head]
  {
    hide CitesMissing;
    assert [row][..0] == [];
    assert HeadsOf([], git) == [];
  }

  lemma OneOverlay(head: string, git: Git, path: string)
    ensures var targets := LastTargets(DiffOf(git, head));
      RenamesAlong([head], git, {path}) == if path in targets then map[path := targets[path]] else map[]
  {
    hide LastTargets, DiffOf;
    assert [head][..0] == [];
    assert RenamesAlong([], git, {path}) == map[];
  }

  lemma OneCandidate(row: Row)
    ensures Candidates([row], None) == [row]
  {
    assert [row][..0] == [];
    assert Candidates([], None) == [];
  }

  // What is decided for a row whose one file is renamed.
  lemma RenamedFileIsVerified(row: Row, head: string, p: string, repo: Repo)
    requires row.anchor == Some(CodeAnchor(head, [p], [])) && p in repo.renames && !IsContradicted(row)
    ensures RepointsFor(row, repo) == [Repoint(p, repo.renames[p])] && ActionFor(row, repo) == Some(Verify)
  {
    OneCitedPath(head, p);
    hide CitedPaths, EvidenceLine;
    assert RepointsAmong([p], repo) == [Repoint(p, repo.renames[p])] by {
      assert [p][..0] == [];
      assert RepointsAmong([], repo) == [];
    }
    assert FileContradiction([p], repo) == None by {
      assert [p][1..] == [];
    }
  }

  lemma OneRepoint(head: string, p: string, q: string)
    ensures RewriteAnchor(CodeAnchor(head, [p], []), [Repoint(p, q)]) == CodeAnchor(head, [q], [])
  {
    var a := CodeAnchor(head, [p], []);
    assert MoveAnchor(a, Repoint(p, q)) == CodeAnchor(head, [q], []);
    assert [Repoint(p, q)][1..] == [];
  }

  // After one run over that row alone, it cites the target.
  lemma OneRowMoves(head: string, p: string, q: string, repo: Repo, after: Row)
    requires p in repo.renames && q == repo.renames[p]
    requires after == RunRow(HeadRow(head, p), HeadRow(head, p), repo, 0)
    ensures after.anchor == Some(CodeAnchor(head, [q], [])) && !IsContradicted(after) && after.id == 0
  {
    var row := HeadRow(head, p);
    RenamedFileIsVerified(row, head, p, repo);
    OneRepoint(head, p, q);
    hide RepointsFor, ActionFor, RewriteAnchor;
  }

  // A row that cites a missing path, and is not contradicted, is written.
  lemma MissingPathIsWritten(row: Row, head: string, q: string, git: Git)
    requires row.anchor == Some(CodeAnchor(head, [q], [])) && !IsContradicted(row) && q !in git.tree
    ensures Scheduled(row, RepoOf([row], git, false))
  {
    var repo := RepoOf([row], git, false);
    OneRowAsks(row, head, q, git);
    RecordHasRenames([row], git, false);
    assert q !in repo.blobs;
    hide RepoOf, RenamesOf, CitedPaths, EvidenceLine;
    if q in repo.renames {
      RenamedFileIsVerified(row, head, q, repo);
    } else {
      assert FileContradiction([q], repo).Some?;
      hide FileContradiction, RepointsFor;
    }
  }

  lemma UntruthfulGitWritesAgain(git: Git)
    requires !Truthful(git)
    ensures !AlwaysIdleAfterOneRun(git)
  {
    var head, p :| head in git.diffs && p !in git.tree && p in LastTargets(git.diffs[head])
      && LastTargets(git.diffs[head])[p] !in git.tree;
    var row, q := HeadRow(head, p), LastTargets(git.diffs[head])[p];
    var repo := RepoOf([row], git, false);
    var written := RunRow(row, row, repo, 0);
    assert p in repo.renames && repo.renames[p] == q by {
      OneRowAsks(row, head, p, git);
      RecordHasRenames([row], git, false);
      NoDiffNoTargets(git, head);
    }
    hide RepoOf, RunRow, Scheduled, Candidates, RenamesOf, CitedPaths, LastTargets, Cites;
    OneRowMoves(head, p, q, repo, written);
    MissingPathIsWritten(written, head, q, git);
    OneRowRunsTwice(row, written, git);
  }

  // A registry of one row, run over twice.
  lemma OneRowRunsTwice(row: Row, written: Row, git: Git)
    requires row.id == 0 == written.id && written == RunRow(row, row, RepoOf([row], git, false), 0)
    requires Scheduled(written, RepoOf([written], git, false))
    ensures !AlwaysIdleAfterOneRun(git)
  {
    hide RepoOf, RunRow, Scheduled, Candidates;
    var before, after := map[0 := row], map[0 := written];
    OneCandidate(row);
    OneCandidate(written);
    assert Close(row, ClosedAt(map[], 0)) == row;
    assert RunLeaves(before, after, Some(RepoOf([row], git, false)), None, 0, map[], {});
    assert Lists([row], before) && Lists([written], after);
    assert OneRun(before, after, [row], git, false, None, 0, map[], {});
    assert WritesSome(after, None, RepoOf([written], git, false)) by {
      assert 0 in after && Cites(after[0], None);
    }
    assert !Idle(after, [written], git, false, None);
  }

  /** Whatever rows, scope and other writers there are: a second run at the same git and worktree writes nothing,
      exactly when diffs against HEAD name targets that are at HEAD, which is what a diff is. */
  lemma SecondRunIsIdleIff(git: Git)
    ensures AlwaysIdleAfterOneRun(git) <==> Truthful(git)
  {
    if Truthful(git) {
      forall before, after, l1, l2, t1, t2, changed, now, closed, gone |
        OneRun(before, after, l1, git, t1, changed, now, closed, gone) && Lists(l2, after)
        ensures Idle(after, l2, git, t2, changed)
      {
        SecondRunIsIdle(before, after, l1, l2, git, t1, t2, changed, now, closed, gone);
      }
    } else {
      UntruthfulGitWritesAgain(git);
    }
  }
}
