/** What a verify run learns from git and the worktree (runVerify in core/src/code-truth.ts), and what a second
    run at the same state learns. */
module CodeTruthGit {
  import opened Prelude
  import opened CodeTruth

  // ---------- The answers ----------

  // Reading and extracting a file: not there, no judgement possible, or its blocks.
  datatype Extraction = Absent | Unjudged | Extracted(blocks: seq<BlockLite>)

  // An `R` line of `git diff --name-status -M <head>..HEAD`.
  datatype Rename = Rename(from: string, to: string)

  // The state of a repository, by the answers to the questions a run may ask; heads that are no key of `diffs` are
  // unreachable, and `logs` has no entry where `git log -n1` names no commit.
  datatype Git = Git(
    headSha: string,
    tree: map<string, string>,
    diffs: map<string, seq<Rename>>,
    worktree: map<string, Extraction>,
    logs: map<(string, string), string>)

  // The target each source ends at; a later line overrides.
  function LastTargets(lines: seq<Rename>): map<string, string> {
    if lines == [] then map[]
    else LastTargets(lines[..|lines| - 1])[lines[|lines| - 1].from := lines[|lines| - 1].to]
  }

  /** A diff against HEAD names, for a path that is gone, a target that is there. */
  ghost predicate Truthful(git: Git) {
    forall head, p ::
      head in git.diffs && p !in git.tree && p in LastTargets(git.diffs[head]) ==>
        LastTargets(git.diffs[head])[p] in git.tree
  }

  // ---------- What a run asks ----------

  function PathsOf(rows: seq<Row>): set<string> {
    set i, p | 0 <= i < |rows| && rows[i].anchor.Some? && p in CitedPaths(rows[i].anchor.value) :: p
  }

  predicate CitesMissing(row: Row, git: Git) {
    row.anchor.Some? && exists p :: p in CitedPaths(row.anchor.value) && p !in git.tree
  }

  // The heads of the anchors that cite a missing path, in order of first appearance.
  function HeadsOf(rows: seq<Row>, git: Git): seq<string> {
    if rows == [] then []
    else
      var earlier, last := HeadsOf(rows[..|rows| - 1], git), rows[|rows| - 1];
      if CitesMissing(last, git) && last.anchor.value.repoHead !in earlier then earlier + [last.anchor.value.repoHead]
      else earlier
  }

  function DiffOf(git: Git, head: string): seq<Rename> {
    if head in git.diffs then git.diffs[head] else []
  }

  // Only cited paths that are missing at HEAD are renamed.
  function Overlaid(renames: map<string, string>, lines: seq<Rename>, missing: set<string>): map<string, string> {
    var targets := LastTargets(lines);
    map p | p in renames.Keys + targets.Keys * missing :: if p in missing && p in targets then targets[p] else renames[p]
  }

  // A later head overrides.
  function RenamesAlong(heads: seq<string>, git: Git, missing: set<string>): map<string, string> {
    if heads == [] then map[]
    else Overlaid(RenamesAlong(heads[..|heads| - 1], git, missing), DiffOf(git, heads[|heads| - 1]), missing)
  }

  function MissingOf(rows: seq<Row>, git: Git): set<string> {
    set p | p in PathsOf(rows) && p !in git.tree
  }

  function RenamesOf(rows: seq<Row>, git: Git): map<string, string> {
    RenamesAlong(HeadsOf(rows, git), git, MissingOf(rows, git))
  }

  // The blobs of the cited paths, and of the rename targets if that second question is answered.
  function BlobsOf(rows: seq<Row>, git: Git, targetsAnswer: bool): map<string, string> {
    var asked := PathsOf(rows) + if targetsAnswer then RenamesOf(rows, git).Values else {};
    map p | p in asked && p in git.tree :: git.tree[p]
  }

  function SymbolPathsOf(rows: seq<Row>, renames: map<string, string>): set<string> {
    set i, j | 0 <= i < |rows| && rows[i].anchor.Some? && 0 <= j < |rows[i].anchor.value.symbols| ::
      EffectivePath(renames, rows[i].anchor.value.symbols[j].path)
  }

  function Judged(git: Git, path: string): Extraction {
    if path in git.worktree then git.worktree[path] else Absent
  }

  // What is known before contradictions are attributed.
  function DryRepo(rows: seq<Row>, git: Git, targetsAnswer: bool): Repo {
    var renames := RenamesOf(rows, git);
    var paths := SymbolPathsOf(rows, renames);
    Repo(git.headSha, BlobsOf(rows, git, targetsAnswer),
         map p | p in paths && Judged(git, p).Extracted? :: Judged(git, p).blocks,
         renames, map[],
         set p | p in paths && Judged(git, p).Unjudged?)
  }

  // ---------- Attribution ----------

  predicate ContradictedBy(row: Row, repo: Repo) {
    row.anchor.Some? && FirstContradiction(row.anchor.value, repo).Some?
  }

  // The first commit found for a path stays.
  function Attributed(known: map<string, string>, head: string, paths: seq<string>, git: Git,
                      renames: map<string, string>): map<string, string> {
    if paths == [] then known
    else
      var earlier := Attributed(known, head, paths[..|paths| - 1], git, renames);
      var path := EffectivePath(renames, paths[|paths| - 1]);
      if path !in earlier && (head, path) in git.logs && git.logs[(head, path)] != ""
      then earlier[path := git.logs[(head, path)]] else earlier
  }

  function AttributionOf(rows: seq<Row>, git: Git, dry: Repo): map<string, string> {
    if rows == [] then map[]
    else
      var earlier, last := AttributionOf(rows[..|rows| - 1], git, dry), rows[|rows| - 1];
      if ContradictedBy(last, dry)
      then Attributed(earlier, last.anchor.value.repoHead, CitedPaths(last.anchor.value), git, dry.renames)
      else earlier
  }

  function RepoOf(rows: seq<Row>, git: Git, targetsAnswer: bool): Repo {
    var dry := DryRepo(rows, git, targetsAnswer);
    dry.(attribution := AttributionOf(rows, git, dry))
  }

  // ---------- The run's own loops ----------

  lemma OneMoreLine(before: map<string, string>, lines: seq<Rename>, k: nat, missing: set<string>)
    requires k < |lines|
    ensures var r := Overlaid(before, lines[..k], missing);
      Overlaid(before, lines[..k + 1], missing) == if lines[k].from in missing then r[lines[k].from := lines[k].to] else r
  {
    assert lines[..k + 1][..k] == lines[..k];
    assert LastTargets(lines[..k + 1]) == LastTargets(lines[..k])[lines[k].from := lines[k].to];
    hide LastTargets;
  }

  method OverlayDiff(before: map<string, string>, lines: seq<Rename>, missing: set<string>)
    returns (renames: map<string, string>)
    ensures renames == Overlaid(before, lines, missing)
  {
    renames := before;
    for k := 0 to |lines|
      invariant renames == Overlaid(before, lines[..k], missing)
    {
      OneMoreLine(before, lines, k, missing);
      hide Overlaid;
      if lines[k].from in missing {
        renames := renames[lines[k].from := lines[k].to];
      }
    }
    assert lines[..|lines|] == lines;
  }

  method GatherRenames(rows: seq<Row>, git: Git) returns (renames: map<string, string>)
    ensures renames == RenamesOf(rows, git)
  {
    hide CitedPaths, Overlaid, PathsOf;
    var missing := MissingOf(rows, git);
    var heads: seq<string> := [];
    for k := 0 to |rows|
      invariant heads == HeadsOf(rows[..k], git)
    {
      assert rows[..k + 1][..k] == rows[..k];
      if CitesMissing(rows[k], git) && rows[k].anchor.value.repoHead !in heads {
        heads := heads + [rows[k].anchor.value.repoHead];
      }
    }
    assert rows[..|rows|] == rows;
    renames := map[];
    for k := 0 to |heads|
      invariant renames == RenamesAlong(heads[..k], git, missing)
    {
      assert heads[..k + 1][..k] == heads[..k];
      // An unreachable head yields no rename information.
      renames := OverlayDiff(renames, DiffOf(git, heads[k]), missing);
    }
    assert heads[..|heads|] == heads;
  }

  method GatherBlocks(paths: set<string>, git: Git) returns (blocks: map<string, seq<BlockLite>>, undetermined: set<string>)
    ensures blocks == map p | p in paths && Judged(git, p).Extracted? :: Judged(git, p).blocks
    ensures undetermined == set p | p in paths && Judged(git, p).Unjudged?
  {
    blocks, undetermined := map[], {};
    var todo := paths;
    while todo != {}
      invariant todo <= paths
      invariant blocks == map p | p in paths - todo && Judged(git, p).Extracted? :: Judged(git, p).blocks
      invariant undetermined == set p | p in paths - todo && Judged(git, p).Unjudged?
      decreases todo
    {
      ghost var _ := SomeMember(todo);
      var path :| path in todo;
      todo := todo - {path};
      match Judged(git, path) {
        case Absent =>
        case Unjudged => undetermined := undetermined + {path};
        case Extracted(found) => blocks := blocks[path := found];
      }
    }
  }

  method Attribute(rows: seq<Row>, git: Git, dry: Repo) returns (attribution: map<string, string>)
    ensures attribution == AttributionOf(rows, git, dry)
  {
    hide FirstContradiction, CitedPaths;
    attribution := map[];
    for k := 0 to |rows|
      invariant attribution == AttributionOf(rows[..k], git, dry)
    {
      assert rows[..k + 1][..k] == rows[..k];
      if ContradictedBy(rows[k], dry) {
        var head, paths := rows[k].anchor.value.repoHead, CitedPaths(rows[k].anchor.value);
        ghost var before := attribution;
        for j := 0 to |paths|
          invariant attribution == Attributed(before, head, paths[..j], git, dry.renames)
        {
          assert paths[..j + 1][..j] == paths[..j];
          var path := EffectivePath(dry.renames, paths[j]);
          if path !in attribution && (head, path) in git.logs && git.logs[(head, path)] != "" {
            attribution := attribution[path := git.logs[(head, path)]];
          }
        }
        assert paths[..|paths|] == paths;
      }
    }
    assert rows[..|rows|] == rows;
  }

  method GatherRepo(rows: seq<Row>, git: Git, targetsAnswer: bool) returns (repo: Repo)
    ensures repo == RepoOf(rows, git, targetsAnswer)
  {
    hide RenamesOf, PathsOf, SymbolPathsOf, AttributionOf;
    var renames := GatherRenames(rows, git);
    var blocks, undetermined := GatherBlocks(SymbolPathsOf(rows, renames), git);
    var dry := Repo(git.headSha, BlobsOf(rows, git, targetsAnswer), blocks, renames, map[], undetermined);
    assert dry == DryRepo(rows, git, targetsAnswer);
    hide DryRepo;
    var attribution := Attribute(rows, git, dry);
    repo := dry.(attribution := attribution);
  }

  // ---------- What the answers settle ----------

  predicate AsksHead(row: Row, git: Git, head: string) {
    CitesMissing(row, git) && row.anchor.value.repoHead == head
  }

  lemma {:induction false} HeadsAreTheMissing(rows: seq<Row>, git: Git, head: string)
    ensures head in HeadsOf(rows, git) <==> exists i :: 0 <= i < |rows| && AsksHead(rows[i], git, head)
  {
    if rows != [] {
      var n := |rows| - 1;
      HeadsAreTheMissing(rows[..n], git, head);
      assert head in HeadsOf(rows, git) <==> head in HeadsOf(rows[..n], git) || AsksHead(rows[n], git, head) by {
        hide CitesMissing;
      }
      hide AsksHead, HeadsOf;
      assert forall i :: 0 <= i < n ==> rows[..n][i] == rows[i];
    }
  }

  // A path is renamed exactly when it is missing and a head's diff names it; a diff that names it says where to.
  lemma {:induction false} RenamedAlongIff(heads: seq<string>, git: Git, missing: set<string>, p: string)
    ensures p in RenamesAlong(heads, git, missing) <==>
      p in missing && exists k :: 0 <= k < |heads| && p in LastTargets(DiffOf(git, heads[k]))
    ensures p in RenamesAlong(heads, git, missing) ==>
      exists k :: 0 <= k < |heads| && p in LastTargets(DiffOf(git, heads[k]))
        && RenamesAlong(heads, git, missing)[p] == LastTargets(DiffOf(git, heads[k]))[p]
  {
    hide LastTargets, DiffOf;
    if heads != [] {
      var n := |heads| - 1;
      var front := heads[..n];
      RenamedAlongIff(front, git, missing, p);
      assert forall k :: 0 <= k < n ==> front[k] == heads[k];
      if p in RenamesAlong(front, git, missing) {
        var k :| 0 <= k < n && p in LastTargets(DiffOf(git, front[k]))
          && RenamesAlong(front, git, missing)[p] == LastTargets(DiffOf(git, front[k]))[p];
        assert p in LastTargets(DiffOf(git, heads[k]));
      }
      if p in missing && p in LastTargets(DiffOf(git, heads[n])) {
        assert p in LastTargets(DiffOf(git, heads[n]));
      }
    }
  }

  lemma RenamesAreMissing(rows: seq<Row>, git: Git, targetsAnswer: bool)
    requires Truthful(git)
    ensures var renames := RenamesOf(rows, git);
      forall p :: p in renames ==> p in MissingOf(rows, git) && renames[p] in git.tree && renames[p] !in renames
  {
    var renames, heads, missing := RenamesOf(rows, git), HeadsOf(rows, git), MissingOf(rows, git);
    hide HeadsOf, LastTargets, PathsOf, RenamesAlong;
    forall p | p in renames
      ensures p in missing && renames[p] in git.tree
    {
      RenamedAlongIff(heads, git, missing, p);
      var k :| 0 <= k < |heads| && p in LastTargets(DiffOf(git, heads[k])) && renames[p] == LastTargets(DiffOf(git, heads[k]))[p];
      NoDiffNoTargets(git, heads[k]);
    }
    forall p | p in renames
      ensures renames[p] !in renames
    {
      RenamedAlongIff(heads, git, missing, renames[p]);
    }
  }

  lemma NoDiffNoTargets(git: Git, head: string)
    ensures head !in git.diffs ==> LastTargets(DiffOf(git, head)) == map[]
    ensures head in git.diffs ==> LastTargets(DiffOf(git, head)) == LastTargets(git.diffs[head])
  {
  }

  // ---------- By position ----------

  // The rename lines that a run reads, head after head.
  function LinesOf(heads: seq<string>, git: Git): seq<Rename> {
    if heads == [] then [] else LinesOf(heads[..|heads| - 1], git) + DiffOf(git, heads[|heads| - 1])
  }

  ghost predicate LastLineFor(lines: seq<Rename>, p: string, k: int) {
    0 <= k < |lines| && lines[k].from == p && forall j :: k < j < |lines| ==> lines[j].from != p
  }

  lemma {:induction false} LastTargetByPosition(lines: seq<Rename>, p: string)
    ensures forall k :: LastLineFor(lines, p, k) ==> p in LastTargets(lines) && LastTargets(lines)[p] == lines[k].to
    ensures p in LastTargets(lines) ==> exists k :: LastLineFor(lines, p, k)
  {
    if lines != [] {
      var n := |lines| - 1;
      LastTargetByPosition(lines[..n], p);
      if lines[n].from == p {
        assert LastLineFor(lines, p, n);
      } else if p in LastTargets(lines[..n]) {
        var k :| LastLineFor(lines[..n], p, k);
        assert LastLineFor(lines, p, k);
      }
      forall k | LastLineFor(lines, p, k) && k < n ensures LastLineFor(lines[..n], p, k) {
      }
    }
  }

  lemma LastTargetsSnoc(a: seq<Rename>, x: Rename)
    ensures LastTargets(a + [x]) == LastTargets(a)[x.from := x.to]
  {
    assert (a + [x])[..|a|] == a;
  }

  lemma OverwriteLast<K, V>(a: map<K, V>, b: map<K, V>, k: K, v: V)
    ensures (a + b)[k := v] == a + b[k := v]
  {
  }

  lemma {:induction false} LastTargetsJoin(a: seq<Rename>, b: seq<Rename>)
    ensures LastTargets(a + b) == LastTargets(a) + LastTargets(b)
  {
    if b == [] {
      assert a + b == a;
      assert LastTargets(b) == map[];
    } else {
      hide LastTargets;
      var front, x := b[..|b| - 1], b[|b| - 1];
      LastTargetsJoin(a, front);
      assert b == front + [x] && a + b == (a + front) + [x];
      LastTargetsSnoc(a + front, x);
      LastTargetsSnoc(front, x);
      OverwriteLast(LastTargets(a), LastTargets(front), x.from, x.to);
    }
  }

  lemma {:induction false} RenamesAreLastTargets(heads: seq<string>, git: Git, missing: set<string>)
    ensures var all := LastTargets(LinesOf(heads, git));
      RenamesAlong(heads, git, missing) == map p | p in all && p in missing :: all[p]
  {
    hide LastTargets;
    if heads == [] {
      NoLinesNoTargets();
    } else {
      var n := |heads| - 1;
      RenamesAreLastTargets(heads[..n], git, missing);
      LastTargetsJoin(LinesOf(heads[..n], git), DiffOf(git, heads[n]));
    }
  }

  lemma NoLinesNoTargets()
    ensures LastTargets([]) == map[]
  {
  }

  /** A path is renamed exactly when it is cited, missing at HEAD, and the source of a line that the diffs of the asking
      heads show; its target is that of the last such line. */
  lemma RenamesByPosition(rows: seq<Row>, git: Git, p: string)
    ensures var lines := LinesOf(HeadsOf(rows, git), git);
      && (p in RenamesOf(rows, git) <==> p in PathsOf(rows) && p !in git.tree && exists k :: LastLineFor(lines, p, k))
      && (forall k :: p in RenamesOf(rows, git) && LastLineFor(lines, p, k) ==> RenamesOf(rows, git)[p] == lines[k].to)
  {
    hide *;
    var lines := LinesOf(HeadsOf(rows, git), git);
    RenamedIff(rows, git, p);
    LastTargetByPosition(lines, p);
  }

  lemma RenamedIff(rows: seq<Row>, git: Git, p: string)
    ensures var all := LastTargets(LinesOf(HeadsOf(rows, git), git));
      && (p in RenamesOf(rows, git) <==> p in PathsOf(rows) && p !in git.tree && p in all)
      && (p in RenamesOf(rows, git) ==> RenamesOf(rows, git)[p] == all[p])
  {
    hide LastTargets, HeadsOf, LinesOf, RenamesAlong, PathsOf;
    RenamesAreLastTargets(HeadsOf(rows, git), git, MissingOf(rows, git));
  }

  // A question for the last commit of a path since an anchor's head.
  datatype Question = Question(head: string, path: string)

  function QuestionsAbout(row: Row, dry: Repo): seq<Question> {
    if !ContradictedBy(row, dry) then []
    else
      var paths := CitedPaths(row.anchor.value);
      seq(|paths|, i requires 0 <= i < |paths| => Question(row.anchor.value.repoHead, EffectivePath(dry.renames, paths[i])))
  }

  // What is asked for all contradicted rows, in order.
  function QuestionsOf(rows: seq<Row>, dry: Repo): seq<Question> {
    if rows == [] then []
    else QuestionsOf(rows[..|rows| - 1], dry) + QuestionsAbout(rows[|rows| - 1], dry)
  }

  function AnswerTo(q: Question, git: Git): Option<string> {
    if (q.head, q.path) in git.logs && git.logs[(q.head, q.path)] != "" then Some(git.logs[(q.head, q.path)]) else None
  }

  function AnswersTo(known: map<string, string>, questions: seq<Question>, git: Git): map<string, string> {
    if questions == [] then known
    else
      var earlier, q := AnswersTo(known, questions[..|questions| - 1], git), questions[|questions| - 1];
      if q.path !in earlier && AnswerTo(q, git).Some? then earlier[q.path := AnswerTo(q, git).value] else earlier
  }

  predicate IsNamed(q: Question, git: Git, path: string) {
    q.path == path && AnswerTo(q, git).Some?
  }

  ghost predicate FirstNamed(questions: seq<Question>, git: Git, path: string, k: int) {
    0 <= k < |questions| && IsNamed(questions[k], git, path) && forall j :: 0 <= j < k ==> !IsNamed(questions[j], git, path)
  }

  // Question k is the first to be answered for the path, and its answer is the commit.
  ghost predicate NamesFirst(questions: seq<Question>, git: Git, path: string, k: int, commit: string) {
    FirstNamed(questions, git, path, k) && AnswerTo(questions[k], git) == Some(commit)
  }

  lemma {:induction false} AnswersByPosition(questions: seq<Question>, git: Git, path: string)
    ensures var found := AnswersTo(map[], questions, git);
      if path in found then exists k :: NamesFirst(questions, git, path, k, found[path])
      else forall j :: 0 <= j < |questions| ==> !IsNamed(questions[j], git, path)
  {
    if questions != [] {
      var n := |questions| - 1;
      var earlier := AnswersTo(map[], questions[..n], git);
      AnswersByPosition(questions[..n], git, path);
      assert forall j :: 0 <= j < n ==> questions[..n][j] == questions[j];
      hide AnswerTo;
      if path in earlier {
        var k :| NamesFirst(questions[..n], git, path, k, earlier[path]);
        assert NamesFirst(questions, git, path, k, earlier[path]);
      } else if IsNamed(questions[n], git, path) {
        assert NamesFirst(questions, git, path, n, AnswerTo(questions[n], git).value);
      }
    }
  }

  lemma {:induction false} AnswersJoin(known: map<string, string>, a: seq<Question>, b: seq<Question>, git: Git)
    ensures AnswersTo(known, a + b, git) == AnswersTo(AnswersTo(known, a, git), b, git)
  {
    hide AnswerTo;
    if b == [] {
      assert a + b == a;
    } else {
      AnswersJoin(known, a, b[..|b| - 1], git);
      assert (a + b)[..|a + b| - 1] == a + b[..|b| - 1];
    }
  }

  lemma {:induction false} AttributedAnswers(known: map<string, string>, head: string, paths: seq<string>, git: Git,
                                             renames: map<string, string>)
    ensures Attributed(known, head, paths, git, renames) ==
      AnswersTo(known, seq(|paths|, i requires 0 <= i < |paths| => Question(head, EffectivePath(renames, paths[i]))), git)
  {
    if paths != [] {
      var n := |paths| - 1;
      var front := paths[..n];
      AttributedAnswers(known, head, front, git, renames);
      var all := seq(|paths|, i requires 0 <= i < |paths| => Question(head, EffectivePath(renames, paths[i])));
      assert all[..n] == seq(|front|, i requires 0 <= i < |front| => Question(head, EffectivePath(renames, front[i])));
      hide EffectivePath;
    }
  }

  lemma {:induction false} AttributionAnswers(rows: seq<Row>, git: Git, dry: Repo)
    ensures AttributionOf(rows, git, dry) == AnswersTo(map[], QuestionsOf(rows, dry), git)
  {
    hide ContradictedBy, CitedPaths, Attributed, AnswerTo;
    if rows != [] {
      var n := |rows| - 1;
      AttributionAnswers(rows[..n], git, dry);
      AnswersJoin(map[], QuestionsOf(rows[..n], dry), QuestionsAbout(rows[n], dry), git);
      AnchoredIfContradicted(rows[n], dry);
      if ContradictedBy(rows[n], dry) {
        AttributedAnswers(AttributionOf(rows[..n], git, dry), rows[n].anchor.value.repoHead,
          CitedPaths(rows[n].anchor.value), git, dry.renames);
      }
    }
  }

  lemma AnchoredIfContradicted(row: Row, dry: Repo)
    ensures ContradictedBy(row, dry) ==> row.anchor.Some?
  {
  }

  /** A path is attributed to the first commit that git names when asked about the contradicted rows' paths, each from
      its row's head; when git names none it is not attributed. */
  lemma AttributionByPosition(rows: seq<Row>, git: Git, dry: Repo, path: string)
    ensures var questions, found := QuestionsOf(rows, dry), AttributionOf(rows, git, dry);
      if path in found then exists k :: NamesFirst(questions, git, path, k, found[path])
      else forall j :: 0 <= j < |questions| ==> !IsNamed(questions[j], git, path)
  {
    hide NamesFirst, IsNamed, AnswersTo, QuestionsOf, AttributionOf, AnswerTo;
    AttributionAnswers(rows, git, dry);
    AnswersByPosition(QuestionsOf(rows, dry), git, path);
  }
}
