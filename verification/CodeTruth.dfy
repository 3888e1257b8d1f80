/** Verifying memories against the code they cite (core/src/code-truth.ts). */
module CodeTruth {
  import opened Prelude

  // ---------- Rows and the repository ----------

  datatype SymbolRef = SymbolRef(path: string, name: string, contentHash: string)

  datatype CodeAnchor = CodeAnchor(repoHead: string, files: seq<string>, symbols: seq<SymbolRef>)

  datatype Verdict = Verified | Contradicted | Healed

  datatype LastVerified = LastVerified(headSha: string, at: int, result: Verdict, closedByCodeTruth: bool)

  datatype Row = Row(
    id: int,
    anchor: Option<CodeAnchor>,
    stale: bool,
    validTo: Option<int>,
    evidence: seq<string>,
    lastVerified: Option<LastVerified>,
    updatedAt: int)

  datatype BlockLite = BlockLite(name: Option<string>, contentHash: string)

  // A path that is no key of `blobs` is missing at HEAD.
  datatype Repo = Repo(
    headSha: string,
    blobs: map<string, string>,
    blocks: map<string, seq<BlockLite>>,
    renames: map<string, string>,
    attribution: map<string, string>,
    undetermined: set<string>)

  // ---------- The planner, entry by entry ----------

  datatype Contradiction = Contradiction(reason: string, path: string)

  function EffectivePath(renames: map<string, string>, path: string): string {
    if path in renames then renames[path] else path
  }

  function FileContradiction(files: seq<string>, repo: Repo): Option<Contradiction> {
    if files == [] then None
    else if EffectivePath(repo.renames, files[0]) !in repo.blobs && files[0] !in repo.renames then
      Some(Contradiction(files[0] + " deleted", files[0]))
    else FileContradiction(files[1..], repo)
  }

  function Named(blocks: seq<BlockLite>, name: string): seq<BlockLite> {
    if blocks == [] then []
    else (if blocks[0].name == Some(name) then [blocks[0]] else []) + Named(blocks[1..], name)
  }

  predicate HasHash(blocks: seq<BlockLite>, hash: string) {
    exists i :: 0 <= i < |blocks| && blocks[i].contentHash == hash
  }

  function SymbolFailure(s: SymbolRef, repo: Repo): Option<Contradiction> {
    var path := EffectivePath(repo.renames, s.path);
    if path in repo.undetermined then None
    else
      var candidates := Named(if path in repo.blocks then repo.blocks[path] else [], s.name);
      if candidates == [] then Some(Contradiction(path + "#" + s.name + " missing", path))
      else if !HasHash(candidates, s.contentHash) then Some(Contradiction(path + "#" + s.name + " hash changed", path))
      else None
  }

  function SymbolContradiction(symbols: seq<SymbolRef>, repo: Repo): Option<Contradiction> {
    if symbols == [] then None
    else
      var first := SymbolFailure(symbols[0], repo);
      if first.Some? then first else SymbolContradiction(symbols[1..], repo)
  }

  function FirstContradiction(a: CodeAnchor, repo: Repo): Option<Contradiction> {
    var inFiles := FileContradiction(a.files, repo);
    if inFiles.Some? then inFiles else SymbolContradiction(a.symbols, repo)
  }

  predicate Stands(s: SymbolRef, repo: Repo) {
    var path := EffectivePath(repo.renames, s.path);
    || path in repo.undetermined
    || (path in repo.blocks
        && exists b :: b in repo.blocks[path] && b.name == Some(s.name) && b.contentHash == s.contentHash)
  }

  lemma {:induction false} NamedAreTheBlocks(blocks: seq<BlockLite>, name: string, b: BlockLite)
    ensures b in Named(blocks, name) <==> b in blocks && b.name == Some(name)
  {
    if blocks != [] {
      NamedAreTheBlocks(blocks[1..], name, b);
    }
  }

  lemma SymbolFailsIff(s: SymbolRef, repo: Repo)
    ensures SymbolFailure(s, repo) == None <==> Stands(s, repo)
  {
    var path := EffectivePath(repo.renames, s.path);
    if path in repo.blocks {
      var blocks := repo.blocks[path];
      var named := Named(blocks, s.name);
      forall b ensures b in named <==> b in blocks && b.name == Some(s.name) {
        NamedAreTheBlocks(blocks, s.name, b);
      }
      if HasHash(named, s.contentHash) {
        var i :| 0 <= i < |named| && named[i].contentHash == s.contentHash;
        assert named[i] in named;
      }
    }
  }

  lemma {:induction false} NoFileFailsIff(files: seq<string>, repo: Repo)
    ensures FileContradiction(files, repo) == None
      <==> forall f :: f in files ==> f in repo.blobs || f in repo.renames
  {
    if files != [] {
      NoFileFailsIff(files[1..], repo);
      assert files == [files[0]] + files[1..];
    }
  }

  lemma {:induction false} NoSymbolFailsIff(symbols: seq<SymbolRef>, repo: Repo)
    ensures SymbolContradiction(symbols, repo) == None <==> forall s :: s in symbols ==> Stands(s, repo)
  {
    if symbols != [] {
      SymbolFailsIff(symbols[0], repo);
      NoSymbolFailsIff(symbols[1..], repo);
      assert symbols == [symbols[0]] + symbols[1..];
    }
  }

  /** An anchor survives exactly when no cited file was deleted outright and every cited symbol that can be
      judged still has a block of its name with the anchored content; other changes never contradict. */
  lemma AnchorStandsIff(a: CodeAnchor, repo: Repo)
    ensures FirstContradiction(a, repo) == None <==>
      ((forall f :: f in a.files ==> f in repo.blobs || f in repo.renames) && forall s :: s in a.symbols ==> Stands(s, repo))
  {
    NoFileFailsIff(a.files, repo);
    NoSymbolFailsIff(a.symbols, repo);
  }

  // The cited paths in first-citation order.
  function WithoutRepeats(paths: seq<string>): seq<string> {
    if paths == [] then []
    else
      var earlier := WithoutRepeats(paths[..|paths| - 1]);
      if paths[|paths| - 1] in earlier then earlier else earlier + [paths[|paths| - 1]]
  }

  function SymbolPaths(symbols: seq<SymbolRef>): seq<string> {
    seq(|symbols|, i requires 0 <= i < |symbols| => symbols[i].path)
  }

  function CitedPaths(a: CodeAnchor): seq<string> {
    WithoutRepeats(a.files + SymbolPaths(a.symbols))
  }

  datatype Repoint = Repoint(from: string, to: string)

  function RepointsAmong(paths: seq<string>, repo: Repo): seq<Repoint> {
    if paths == [] then []
    else
      var p := paths[|paths| - 1];
      RepointsAmong(paths[..|paths| - 1], repo) + if p in repo.renames then [Repoint(p, repo.renames[p])] else []
  }

  datatype Action = Contradict(evidenceLine: string) | Heal | Verify

  const Dash := " \U{2014} "

  datatype Finding = Finding(id: int, reason: string, commit: Option<string>)

  function FindingOf(id: int, c: Contradiction, repo: Repo): Finding {
    if c.path in repo.attribution then Finding(id, c.reason, Some(repo.attribution[c.path]))
    else Finding(id, c.reason + " (uncommitted change)", None)
  }

  function EvidenceLine(f: Finding): string {
    match f.commit
    case Some(sha) => "code-truth: contradicted by " + Sha7(sha) + Dash + f.reason
    case None => "code-truth: contradicted" + Dash + f.reason
  }

  function Sha7(sha: string): string {
    if |sha| <= 7 then sha else sha[..7]
  }

  // What the planner decides for a row, or nothing when it has no anchor.
  function ActionFor(row: Row, repo: Repo): Option<Action> {
    if row.anchor == None then None
    else
      var failure := FirstContradiction(row.anchor.value, repo);
      if failure.Some? then Some(Contradict(EvidenceLine(FindingOf(row.id, failure.value, repo))))
      else if IsContradicted(row) then Some(Heal)
      else Some(Verify)
  }

  function RepointsFor(row: Row, repo: Repo): seq<Repoint> {
    if row.anchor == None then [] else RepointsAmong(CitedPaths(row.anchor.value), repo)
  }

  predicate IsContradicted(row: Row) {
    row.lastVerified.Some? && row.lastVerified.value.result == Contradicted
  }

  predicate OwnsClose(row: Row) {
    row.lastVerified.Some? && row.lastVerified.value.closedByCodeTruth
  }

  predicate VerifiedAt(row: Row, headSha: string) {
    row.lastVerified.Some? && row.lastVerified.value.headSha == headSha
  }

  // ---------- The patch ----------

  function MovePath(path: string, r: Repoint): string {
    if path == r.from then r.to else path
  }

  function MoveAnchor(a: CodeAnchor, r: Repoint): CodeAnchor {
    a.(files := seq(|a.files|, i requires 0 <= i < |a.files| => MovePath(a.files[i], r)),
       symbols := seq(|a.symbols|, i requires 0 <= i < |a.symbols| => a.symbols[i].(path := MovePath(a.symbols[i].path, r))))
  }

  function RewriteAnchor(a: CodeAnchor, repoints: seq<Repoint>): CodeAnchor
    decreases |repoints|
  {
    if repoints == [] then a else RewriteAnchor(MoveAnchor(a, repoints[0]), repoints[1..])
  }

  // The row after the patch an action makes of it, or nothing when nothing would be written.
  function AfterAction(row: Row, action: Option<Action>, repo: Repo, now: int): Option<Row> {
    match action
    case Some(Contradict(line)) =>
      if IsContradicted(row) then None
      else
        var open := row.validTo == None;
        Some(row.(stale := true,
                  validTo := if open then Some(now) else row.validTo,
                  evidence := row.evidence + [line],
                  lastVerified := Some(LastVerified(repo.headSha, now, Contradicted, open || OwnsClose(row)))))
    case Some(Heal) =>
      Some(row.(stale := false,
                validTo := if OwnsClose(row) then None else row.validTo,
                evidence := row.evidence + ["code-truth: healed at " + Sha7(repo.headSha) + Dash + "hash matches again"],
                lastVerified := Some(LastVerified(repo.headSha, now, Healed, false))))
    case Some(Verify) =>
      if VerifiedAt(row, repo.headSha) then None
      else Some(row.(lastVerified := Some(LastVerified(repo.headSha, now, Verified, false))))
    case None => None
  }

  // buildPatch, applied: the anchor moves first, then the action; updatedAt changes with any write.
  function Patched(row: Row, repoints: seq<Repoint>, action: Option<Action>, repo: Repo, now: int): Option<Row> {
    var moves := repoints != [] && row.anchor.Some?;
    var moved := if moves then row.(anchor := Some(RewriteAnchor(row.anchor.value, repoints))) else row;
    match AfterAction(moved, action, repo, now)
    case Some(r) => Some(r.(updatedAt := now))
    case None => if moves then Some(moved.(updatedAt := now)) else None
  }

  // Whether a row is written at all is decided on the snapshot the plan was made from.
  predicate Scheduled(snapshot: Row, repo: Repo) {
    var action := ActionFor(snapshot, repo);
    || RepointsFor(snapshot, repo) != []
    || action == Some(Heal)
    || (action.Some? && action.value.Contradict? && !IsContradicted(snapshot))
    || (action == Some(Verify) && !VerifiedAt(snapshot, repo.headSha))
  }

  // What a run makes of a row planned on `snapshot` and found as `current` when the batch is applied.
  function RunRow(snapshot: Row, current: Row, repo: Repo, now: int): Row {
    if !Scheduled(snapshot, repo) then current
    else Patched(current, RepointsFor(snapshot, repo), ActionFor(snapshot, repo), repo, now).GetOr(current)
  }

  // Another writer closes an open row, and touches nothing else.
  function Close(row: Row, at: Option<int>): Row {
    if at.Some? && row.validTo == None then row.(validTo := at) else row
  }

  // ---------- Who closed the row ----------

  datatype Closer = Nobody | ByVerify | ByOther(at: int)

  // A row with the writer its validTo comes from.
  datatype Tracked = Tracked(row: Row, closer: Closer)

  // A run may be overtaken by another writer between its snapshot and its batch.
  datatype Event = OtherCloses(at: int) | VerifyRun(repo: Repo, now: int, overtakenAt: Option<int>)

  function TrackClose(t: Tracked, at: Option<int>): Tracked {
    if at.Some? && t.row.validTo == None then Tracked(Close(t.row, at), ByOther(at.value)) else t
  }

  function Happens(t: Tracked, e: Event): Tracked {
    match e
    case OtherCloses(at) => TrackClose(t, Some(at))
    case VerifyRun(repo, now, overtakenAt) =>
      var current := TrackClose(t, overtakenAt);
      var row := RunRow(t.row, current.row, repo, now);
      Tracked(row,
              if row.validTo == None then Nobody
              else if current.row.validTo == None then ByVerify
              else current.closer)
  }

  function History(t: Tracked, events: seq<Event>): Tracked
    decreases |events|
  {
    if events == [] then t else History(Happens(t, events[0]), events[1..])
  }

  // The flag in the row tells the truth about its close.
  predicate OwnershipHolds(t: Tracked) {
    && (t.closer == Nobody <==> t.row.validTo == None)
    && (t.closer.ByOther? ==> t.row.validTo == Some(t.closer.at))
    && (OwnsClose(t.row) <==> t.closer == ByVerify)
    && (OwnsClose(t.row) ==> IsContradicted(t.row))
  }

  // What a patch does to the close and to the claim on it.
  lemma PatchedClose(current: Row, repoints: seq<Repoint>, action: Option<Action>, repo: Repo, now: int)
    ensures var r := Patched(current, repoints, action, repo, now).GetOr(current);
      if action.Some? && action.value.Contradict? && !IsContradicted(current) then
        && r.validTo == Some(current.validTo.GetOr(now)) && IsContradicted(r)
        && (OwnsClose(r) <==> current.validTo == None || OwnsClose(current))
      else if action == Some(Heal) then
        r.validTo == (if OwnsClose(current) then None else current.validTo) && !OwnsClose(r)
      else if action == Some(Verify) && !VerifiedAt(current, repo.headSha) then
        r.validTo == current.validTo && !OwnsClose(r)
      else r.validTo == current.validTo && r.lastVerified == current.lastVerified
  {
    hide RewriteAnchor, Sha7;
  }

  lemma PlannedActionFits(row: Row, repo: Repo)
    ensures ActionFor(row, repo) == Some(Heal) ==> IsContradicted(row)
    ensures ActionFor(row, repo) == Some(Verify) ==> !IsContradicted(row)
  {
    hide FirstContradiction, EvidenceLine;
  }

  lemma EventKeepsOwnership(t: Tracked, e: Event)
    requires OwnershipHolds(t)
    ensures OwnershipHolds(Happens(t, e))
    ensures t.closer.ByOther? ==> Happens(t, e).closer == t.closer
  {
    if e.VerifyRun? {
      var current := TrackClose(t, e.overtakenAt).row;
      var action := ActionFor(t.row, e.repo);
      PatchedClose(current, RepointsFor(t.row, e.repo), action, e.repo, e.now);
      PlannedActionFits(t.row, e.repo);
      hide ActionFor, RepointsFor, Patched;
    }
  }

  /** Over any history of verify runs and other writers, the flag is right about who closed the row, and
      a close made by another writer is never changed. */
  lemma {:induction false} ForeignClosesAreNeverTouched(t: Tracked, events: seq<Event>)
    requires OwnershipHolds(t)
    ensures OwnershipHolds(History(t, events))
    ensures t.closer.ByOther? ==> History(t, events).row.validTo == t.row.validTo
    decreases |events|
  {
    if events != [] {
      EventKeepsOwnership(t, events[0]);
      ForeignClosesAreNeverTouched(Happens(t, events[0]), events[1..]);
    }
  }

  lemma UnverifiedRowsStartOwned(row: Row)
    requires row.lastVerified == None
    ensures OwnershipHolds(Tracked(row, if row.validTo.Some? then ByOther(row.validTo.value) else Nobody))
  {
  }

  /** A run that finds the code as anchored again reopens a row exactly when verify had closed it. */
  lemma HealReopensOwnClosesOnly(t: Tracked, repo: Repo, now: int, overtakenAt: Option<int>)
    requires OwnershipHolds(t) && ActionFor(t.row, repo) == Some(Heal)
    ensures var healed := Happens(t, VerifyRun(repo, now, overtakenAt)).row;
      && !healed.stale && !IsContradicted(healed)
      && (t.closer == ByVerify ==> healed.validTo == None)
      && (t.closer != ByVerify ==> healed.validTo == TrackClose(t, overtakenAt).row.validTo)
  {
    hide FirstContradiction, RepointsFor, RewriteAnchor;
  }

  /** A run never reopens a row whose code is still contradicted, and closes it if it was open. */
  lemma ContradictionCloses(t: Tracked, repo: Repo, now: int, overtakenAt: Option<int>)
    requires OwnershipHolds(t) && ActionFor(t.row, repo).Some? && ActionFor(t.row, repo).value.Contradict?
    requires !IsContradicted(t.row)
    ensures var after := Happens(t, VerifyRun(repo, now, overtakenAt)).row;
      && after.stale && IsContradicted(after)
      && after.validTo == Some(TrackClose(t, overtakenAt).row.validTo.GetOr(now))
  {
    hide FirstContradiction, RepointsFor, RewriteAnchor;
  }

  // ---------- What a run records ----------

  // The first cited file that was deleted outright, or else the first cited symbol that does not stand.
  ghost predicate FailsFirstAt(a: CodeAnchor, repo: Repo, c: Contradiction) {
    || (exists k :: 0 <= k < |a.files| && FileFails(a.files[k], repo)
          && (forall j :: 0 <= j < k ==> !FileFails(a.files[j], repo))
          && c == Contradiction(a.files[k] + " deleted", a.files[k]))
    || ((forall j :: 0 <= j < |a.files| ==> !FileFails(a.files[j], repo))
        && exists k :: 0 <= k < |a.symbols| && SymbolFails(a.symbols[k], repo, c)
             && forall j :: 0 <= j < k ==> Stands(a.symbols[j], repo))
  }

  predicate FileFails(file: string, repo: Repo) {
    file !in repo.blobs && file !in repo.renames
  }

  // Missing when no block has the name, changed when none of those has the content.
  ghost predicate SymbolFails(s: SymbolRef, repo: Repo, c: Contradiction) {
    var path := EffectivePath(repo.renames, s.path);
    var found := path in repo.blocks && exists b :: b in repo.blocks[path] && b.name == Some(s.name);
    !Stands(s, repo) && c == Contradiction(path + "#" + s.name + (if found then " hash changed" else " missing"), path)
  }

  lemma SymbolFailureIs(s: SymbolRef, repo: Repo)
    requires SymbolFailure(s, repo).Some?
    ensures SymbolFails(s, repo, SymbolFailure(s, repo).value)
  {
    SymbolFailsIff(s, repo);
    var path := EffectivePath(repo.renames, s.path);
    var blocks := if path in repo.blocks then repo.blocks[path] else [];
    forall b ensures b in Named(blocks, s.name) <==> b in blocks && b.name == Some(s.name) {
      NamedAreTheBlocks(blocks, s.name, b);
    }
    hide Named, HasHash;
    if Named(blocks, s.name) != [] {
      assert Named(blocks, s.name)[0] in blocks;
    }
  }

  lemma {:induction false} FirstFileFails(files: seq<string>, repo: Repo)
    requires FileContradiction(files, repo).Some?
    ensures exists k ::
      && 0 <= k < |files| && FileFails(files[k], repo)
      && (forall j :: 0 <= j < k ==> !FileFails(files[j], repo))
      && FileContradiction(files, repo).value == Contradiction(files[k] + " deleted", files[k])
  {
    if FileFails(files[0], repo) {
    } else {
      FirstFileFails(files[1..], repo);
      var k :| 0 <= k < |files[1..]| && FileFails(files[1..][k], repo)
        && (forall j :: 0 <= j < k ==> !FileFails(files[1..][j], repo))
        && FileContradiction(files[1..], repo).value == Contradiction(files[1..][k] + " deleted", files[1..][k]);
      assert forall j :: 0 <= j < k + 1 ==> files[j] == if j == 0 then files[0] else files[1..][j - 1];
      assert files[k + 1] == files[1..][k];
    }
  }

  lemma {:induction false} FirstSymbolFails(symbols: seq<SymbolRef>, repo: Repo)
    requires SymbolContradiction(symbols, repo).Some?
    ensures exists k ::
      && 0 <= k < |symbols| && SymbolFails(symbols[k], repo, SymbolContradiction(symbols, repo).value)
      && forall j :: 0 <= j < k ==> Stands(symbols[j], repo)
  {
    hide SymbolFails, Stands, SymbolFailure;
    SymbolFailsIff(symbols[0], repo);
    if SymbolFailure(symbols[0], repo).Some? {
      SymbolFailureIs(symbols[0], repo);
    } else {
      FirstSymbolFails(symbols[1..], repo);
      var c := SymbolContradiction(symbols[1..], repo).value;
      var k :| 0 <= k < |symbols[1..]| && SymbolFails(symbols[1..][k], repo, c)
        && forall j :: 0 <= j < k ==> Stands(symbols[1..][j], repo);
      assert symbols[k + 1] == symbols[1..][k];
      assert forall j :: 0 <= j < k + 1 ==> symbols[j] == if j == 0 then symbols[0] else symbols[1..][j - 1];
    }
  }

  /** What is reported of a contradicted anchor is its first failing citation. */
  lemma FirstFailureIsReported(a: CodeAnchor, repo: Repo)
    requires FirstContradiction(a, repo).Some?
    ensures FailsFirstAt(a, repo, FirstContradiction(a, repo).value)
  {
    hide FileFails, SymbolFails, Stands, SymbolContradiction, FileContradiction;
    if FileContradiction(a.files, repo).Some? {
      FirstFileFails(a.files, repo);
    } else {
      NoFileFails(a.files, repo);
      FirstSymbolFails(a.symbols, repo);
    }
  }

  lemma NoFileFails(files: seq<string>, repo: Repo)
    requires FileContradiction(files, repo) == None
    ensures forall j :: 0 <= j < |files| ==> !FileFails(files[j], repo)
  {
    NoFileFailsIff(files, repo);
  }

  // The line a run adds to the evidence.
  function ContradictedLine(c: Contradiction, repo: Repo): string {
    if c.path in repo.attribution
    then "code-truth: contradicted by " + Sha7(repo.attribution[c.path]) + Dash + c.reason
    else "code-truth: contradicted" + Dash + c.reason + " (uncommitted change)"
  }

  function HealedLine(repo: Repo): string {
    "code-truth: healed at " + Sha7(repo.headSha) + Dash + "hash matches again"
  }

  // What the row says of its verification when the run is over.
  ghost predicate Records(before: Row, after: Row, stale: bool, lines: seq<string>, verdict: Option<(Verdict, Repo, int)>) {
    && after.stale == stale && after.evidence == before.evidence + lines
    && match verdict
       case None => after.lastVerified == before.lastVerified
       case Some((v, repo, now)) =>
         && after.lastVerified.Some? && after.lastVerified.value.result == v
         && after.lastVerified.value.headSha == repo.headSha && after.lastVerified.value.at == now
         && after.updatedAt == now
  }

  /** A run records its verdict on the row it finds: a new contradiction with its line, a heal with its line, a first
      verification of this head without one; and nothing at all otherwise. The evidence only ever grows. */
  lemma VerdictIsRecorded(snapshot: Row, current: Row, repo: Repo, now: int)
    requires snapshot.anchor.Some?
    ensures var after := RunRow(snapshot, current, repo, now);
      var failure := FirstContradiction(snapshot.anchor.value, repo);
      if failure.Some? then
        if !IsContradicted(current) && Scheduled(snapshot, repo) then
          Records(current, after, true, [ContradictedLine(failure.value, repo)], Some((Contradicted, repo, now)))
        else Records(current, after, current.stale, [], None)
      else if IsContradicted(snapshot) then
        Records(current, after, false, [HealedLine(repo)], Some((Healed, repo, now)))
      else if !VerifiedAt(current, repo.headSha) && Scheduled(snapshot, repo) then
        Records(current, after, current.stale, [], Some((Verified, repo, now)))
      else Records(current, after, current.stale, [], None)
  {
    hide FirstContradiction, RepointsFor, RewriteAnchor, Sha7;
    if FirstContradiction(snapshot.anchor.value, repo).Some? {
      LineIs(snapshot.id, FirstContradiction(snapshot.anchor.value, repo).value, repo);
    }
  }

  lemma LineIs(id: int, c: Contradiction, repo: Repo)
    ensures EvidenceLine(FindingOf(id, c, repo)) == ContradictedLine(c, repo)
  {
    hide Sha7;
  }

  lemma RowsWithoutAnchorStay(snapshot: Row, current: Row, repo: Repo, now: int)
    requires snapshot.anchor == None
    ensures RunRow(snapshot, current, repo, now) == current
  {
  }

  // ---------- A second run at the same state ----------

  // No rename target is itself renamed away.
  ghost predicate NoChains(repo: Repo) {
    forall p :: p in repo.renames ==> repo.renames[p] !in repo.renames
  }

  // Every rename target exists at HEAD, too.
  ghost predicate Settled(repo: Repo) {
    NoChains(repo) && forall p :: p in repo.renames ==> repo.renames[p] in repo.blobs
  }

  function EffectiveAnchor(a: CodeAnchor, repo: Repo): CodeAnchor {
    a.(files := seq(|a.files|, i requires 0 <= i < |a.files| => EffectivePath(repo.renames, a.files[i])),
       symbols := seq(|a.symbols|, i requires 0 <= i < |a.symbols| =>
         a.symbols[i].(path := EffectivePath(repo.renames, a.symbols[i].path))))
  }

  lemma {:induction false} WithoutRepeatsKeepsMembers(paths: seq<string>, p: string)
    ensures p in WithoutRepeats(paths) <==> p in paths
  {
    if paths != [] {
      WithoutRepeatsKeepsMembers(paths[..|paths| - 1], p);
      assert paths == paths[..|paths| - 1] + [paths[|paths| - 1]];
    }
  }

  // The path a sequence of repoints takes another path to.
  function MoveAll(path: string, repoints: seq<Repoint>): string
    decreases |repoints|
  {
    if repoints == [] then path else MoveAll(MovePath(path, repoints[0]), repoints[1..])
  }

  lemma {:induction false} RewriteMovesEachPath(a: CodeAnchor, repoints: seq<Repoint>)
    ensures var b := RewriteAnchor(a, repoints);
      && |b.files| == |a.files| && |b.symbols| == |a.symbols|
      && (forall i :: 0 <= i < |a.files| ==> b.files[i] == MoveAll(a.files[i], repoints))
      && (forall i :: 0 <= i < |a.symbols| ==>
            b.symbols[i] == a.symbols[i].(path := MoveAll(a.symbols[i].path, repoints)))
      && b.repoHead == a.repoHead
    decreases |repoints|
  {
    if repoints != [] {
      RewriteMovesEachPath(MoveAnchor(a, repoints[0]), repoints[1..]);
    }
  }

  lemma {:induction false} MoveAllSplits(path: string, r1: seq<Repoint>, r2: seq<Repoint>)
    ensures MoveAll(path, r1 + r2) == MoveAll(MoveAll(path, r1), r2)
    decreases |r1|
  {
    if r1 == [] {
      assert r1 + r2 == r2;
    } else {
      assert (r1 + r2)[1..] == r1[1..] + r2;
      MoveAllSplits(MovePath(path, r1[0]), r1[1..], r2);
    }
  }

  // Without chains of renames, the repoints of the cited paths take each of them one step.
  lemma {:induction false} RepointsMoveOneStep(paths: seq<string>, repo: Repo, p: string)
    requires NoChains(repo)
    ensures MoveAll(p, RepointsAmong(paths, repo)) == if p in paths then EffectivePath(repo.renames, p) else p
  {
    if paths != [] {
      var n := |paths| - 1;
      RepointsMoveOneStep(paths[..n], repo, p);
      assert paths == paths[..n] + [paths[n]];
      var last := if paths[n] in repo.renames then [Repoint(paths[n], repo.renames[paths[n]])] else [];
      MoveAllSplits(p, RepointsAmong(paths[..n], repo), last);
    }
  }

  lemma RewriteIsEffective(a: CodeAnchor, repo: Repo)
    requires NoChains(repo)
    ensures RewriteAnchor(a, RepointsAmong(CitedPaths(a), repo)) == EffectiveAnchor(a, repo)
  {
    var repoints := RepointsAmong(CitedPaths(a), repo);
    RewriteMovesEachPath(a, repoints);
    var paths := a.files + SymbolPaths(a.symbols);
    forall i | 0 <= i < |a.files|
      ensures MoveAll(a.files[i], repoints) == EffectivePath(repo.renames, a.files[i])
    {
      assert a.files[i] == paths[i];
      WithoutRepeatsKeepsMembers(paths, a.files[i]);
      RepointsMoveOneStep(CitedPaths(a), repo, a.files[i]);
    }
    forall i | 0 <= i < |a.symbols|
      ensures MoveAll(a.symbols[i].path, repoints) == EffectivePath(repo.renames, a.symbols[i].path)
    {
      assert a.symbols[i].path == paths[|a.files| + i];
      WithoutRepeatsKeepsMembers(paths, a.symbols[i].path);
      RepointsMoveOneStep(CitedPaths(a), repo, a.symbols[i].path);
    }
  }

  lemma {:induction false} NoRepointsWithoutRenames(paths: seq<string>, repo: Repo)
    requires forall i :: 0 <= i < |paths| ==> paths[i] !in repo.renames
    ensures RepointsAmong(paths, repo) == []
  {
    if paths != [] {
      NoRepointsWithoutRenames(paths[..|paths| - 1], repo);
    }
  }

  lemma EffectiveAnchorHasNoRepoints(a: CodeAnchor, repo: Repo)
    requires NoChains(repo)
    ensures RepointsAmong(CitedPaths(EffectiveAnchor(a, repo)), repo) == []
  {
    var b := EffectiveAnchor(a, repo);
    var paths := b.files + SymbolPaths(b.symbols);
    forall i | 0 <= i < |CitedPaths(b)|
      ensures CitedPaths(b)[i] !in repo.renames
    {
      WithoutRepeatsKeepsMembers(paths, CitedPaths(b)[i]);
      var j :| 0 <= j < |paths| && paths[j] == CitedPaths(b)[i];
      if j < |b.files| {
        assert paths[j] == EffectivePath(repo.renames, a.files[j]);
      } else {
        assert paths[j] == EffectivePath(repo.renames, a.symbols[j - |b.files|].path);
      }
    }
    NoRepointsWithoutRenames(CitedPaths(b), repo);
  }

  lemma {:induction false} FilesJudgedAlike(files: seq<string>, moved: seq<string>, repo: Repo)
    requires Settled(repo) && |moved| == |files| && forall i :: 0 <= i < |files| ==> moved[i] == EffectivePath(repo.renames, files[i])
    ensures FileContradiction(moved, repo).Some? <==> FileContradiction(files, repo).Some?
  {
    if files != [] {
      FilesJudgedAlike(files[1..], moved[1..], repo);
    }
  }

  lemma {:induction false} SymbolsJudgedAlike(symbols: seq<SymbolRef>, moved: seq<SymbolRef>, repo: Repo)
    requires Settled(repo) && |moved| == |symbols|
    requires forall i :: 0 <= i < |symbols| ==> moved[i] == symbols[i].(path := EffectivePath(repo.renames, symbols[i].path))
    ensures SymbolContradiction(moved, repo) == SymbolContradiction(symbols, repo)
  {
    if symbols != [] {
      SymbolsJudgedAlike(symbols[1..], moved[1..], repo);
    }
  }

  // Moving the anchor along the renames does not change the verdict.
  lemma MovedAnchorIsJudgedAlike(a: CodeAnchor, repo: Repo)
    requires Settled(repo)
    ensures FirstContradiction(EffectiveAnchor(a, repo), repo).Some? <==> FirstContradiction(a, repo).Some?
  {
    FilesJudgedAlike(a.files, EffectiveAnchor(a, repo).files, repo);
    SymbolsJudgedAlike(a.symbols, EffectiveAnchor(a, repo).symbols, repo);
  }

  lemma {:induction false} NoRepointsLeaveTheAnchor(a: CodeAnchor, repo: Repo)
    requires NoChains(repo) && RepointsAmong(CitedPaths(a), repo) == []
    ensures EffectiveAnchor(a, repo) == a
  {
    RewriteIsEffective(a, repo);
  }

  lemma PatchedAnchor(row: Row, repoints: seq<Repoint>, action: Option<Action>, repo: Repo, now: int)
    ensures Patched(row, repoints, action, repo, now).GetOr(row).anchor
      == if row.anchor.Some? then Some(RewriteAnchor(row.anchor.value, repoints)) else None
  {
    hide RewriteAnchor, Sha7;
    if repoints == [] {
      NoRepointsNoRewrite(row, repoints);
    }
  }

  lemma NoRepointsNoRewrite(row: Row, repoints: seq<Repoint>)
    requires repoints == []
    ensures row.anchor.Some? ==> RewriteAnchor(row.anchor.value, repoints) == row.anchor.value
  {
  }

  // The anchor after a run.
  lemma RunMovesTheAnchor(snapshot: Row, current: Row, repo: Repo, now: int)
    requires NoChains(repo) && current.anchor == snapshot.anchor
    ensures var after := RunRow(snapshot, current, repo, now);
      after.anchor == if snapshot.anchor.Some? then Some(EffectiveAnchor(snapshot.anchor.value, repo)) else None
  {
    PatchedAnchor(current, RepointsFor(snapshot, repo), ActionFor(snapshot, repo), repo, now);
    if snapshot.anchor.Some? {
      RewriteIsEffective(snapshot.anchor.value, repo);
      if RepointsFor(snapshot, repo) == [] {
        NoRepointsLeaveTheAnchor(snapshot.anchor.value, repo);
      }
    }
    hide ActionFor, Patched, RewriteAnchor, RepointsAmong, CitedPaths, EffectiveAnchor;
  }

  // What a run leaves behind: contradicted exactly if the code contradicts, verified at HEAD otherwise.
  lemma RunSettlesTheVerdict(snapshot: Row, current: Row, repo: Repo, now: int)
    requires current.anchor == snapshot.anchor && current.lastVerified == snapshot.lastVerified
    requires snapshot.anchor.Some?
    ensures var after := RunRow(snapshot, current, repo, now);
      if FirstContradiction(snapshot.anchor.value, repo).Some? then IsContradicted(after)
      else !IsContradicted(after) && VerifiedAt(after, repo.headSha)
  {
    hide FirstContradiction, RewriteAnchor, RepointsAmong, CitedPaths, EvidenceLine;
  }

  // Two runs at one repository state, the first possibly overtaken: would the second write the row?
  predicate SecondRunWrites(row: Row, repo: Repo, now: int, overtakenAt: Option<int>) {
    Scheduled(RunRow(row, Close(row, overtakenAt), repo, now), repo)
  }

  lemma SettledRunsAreIdempotent(row: Row, repo: Repo, now: int, overtakenAt: Option<int>)
    requires Settled(repo)
    ensures !SecondRunWrites(row, repo, now, overtakenAt)
  {
    var current := Close(row, overtakenAt);
    var after := RunRow(row, current, repo, now);
    RunMovesTheAnchor(row, current, repo, now);
    if row.anchor.Some? {
      RunSettlesTheVerdict(row, current, repo, now);
      EffectiveAnchorHasNoRepoints(row.anchor.value, repo);
      MovedAnchorIsJudgedAlike(row.anchor.value, repo);
      hide FirstContradiction, RewriteAnchor, RepointsAmong, CitedPaths, EvidenceLine, RunRow, EffectiveAnchor;
    }
  }

  function FileRow(path: string): Row {
    Row(0, Some(CodeAnchor("", [path], [])), false, None, [], None, 0)
  }

  // A renamed file whose target is gone, or renamed on, is written again by a second run.
  lemma UnsettledRunsWriteAgain(repo: Repo, p: string)
    requires p in repo.renames && (repo.renames[p] in repo.renames || repo.renames[p] !in repo.blobs)
    ensures SecondRunWrites(FileRow(p), repo, 0, None)
  {
    var row, q := FileRow(p), repo.renames[p];
    OneCitedPath("", p);
    OneCitedPath("", q);
    assert RepointsAmong([p], repo) == [Repoint(p, q)] by {
      assert [p][..0] == [];
    }
    assert FileContradiction([p], repo) == None by {
      assert [p][1..] == [];
    }
    var after := RunRow(row, row, repo, 0);
    assert MoveAnchor(row.anchor.value, Repoint(p, q)).files == [q];
    assert RewriteAnchor(row.anchor.value, [Repoint(p, q)]) == MoveAnchor(row.anchor.value, Repoint(p, q)) by {
      assert [Repoint(p, q)][1..] == [];
    }
    assert after.anchor.value.files == [q] && after.anchor.value.symbols == [];
    assert after.anchor == Some(CodeAnchor("", [q], []));
    if q in repo.renames {
      assert RepointsAmong([q], repo) == [Repoint(q, repo.renames[q])] by {
        assert [q][..0] == [];
      }
    } else {
      assert FileContradiction([q], repo).Some?;
    }
  }

  lemma OneCitedPath(head: string, p: string)
    ensures CitedPaths(CodeAnchor(head, [p], [])) == [p]
  {
    assert [p] + SymbolPaths([]) == [p];
    assert WithoutRepeats([p]) == [p] by {
      assert [p][..0] == [];
      assert WithoutRepeats([p][..0]) == [];
    }
  }

  /** For one fixed record of the repository, a second run given that record writes nothing, for every row, exactly
      when the renames are settled. */
  lemma IdempotentIffSettled(repo: Repo)
    ensures (forall row: Row, now: int, overtakenAt: Option<int> :: !SecondRunWrites(row, repo, now, overtakenAt))
      <==> Settled(repo)
  {
    if Settled(repo) {
      forall row: Row, now: int, overtakenAt: Option<int>
        ensures !SecondRunWrites(row, repo, now, overtakenAt)
      {
        SettledRunsAreIdempotent(row, repo, now, overtakenAt);
      }
    } else {
      var p :| p in repo.renames && (repo.renames[p] in repo.renames || repo.renames[p] !in repo.blobs);
      UnsettledRunsWriteAgain(repo, p);
    }
  }
}
