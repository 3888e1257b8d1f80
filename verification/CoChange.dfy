/** Which files change together (context-pruner/src/cochange.ts), over commits already split into rows. */
module CoChange {
  import opened Prelude

  datatype Row = Row(path: string, churn: int)

  type Commit = seq<Row>
  type Frequencies = map<string, map<string, int>>

  const MaxFilesPerCommit := 50

  // ---------- What is counted ----------

  predicate Touches(commit: Commit, path: string) {
    exists i :: 0 <= i < |commit| && commit[i].path == path
  }

  predicate Together(commit: Commit, a: string, b: string) {
    |commit| <= MaxFilesPerCommit && a != b && Touches(commit, a) && Touches(commit, b)
  }

  // The number of commits, other than mass changes, that touch both files.
  function SharedCommits(commits: seq<Commit>, a: string, b: string): int {
    if commits == [] then 0
    else
      var n := |commits| - 1;
      SharedCommits(commits[..n], a, b) + if Together(commits[n], a, b) then 1 else 0
  }

  function ChurnIn(commit: Commit, path: string): int {
    if commit == [] then 0
    else
      var n := |commit| - 1;
      ChurnIn(commit[..n], path) + if commit[n].path == path then commit[n].churn else 0
  }

  function TotalChurn(commits: seq<Commit>, path: string): int {
    if commits == [] then 0
    else TotalChurn(commits[..|commits| - 1], path) + ChurnIn(commits[|commits| - 1], path)
  }

  // ---------- The maps ----------

  function Freq(m: Frequencies, a: string, b: string): int {
    if a in m && b in m[a] then m[a][b] else 0
  }

  function Get(churn: map<string, int>, path: string): int {
    if path in churn then churn[path] else 0
  }

  method Bump(m: Frequencies, key: string, other: string) returns (more: Frequencies)
    ensures forall a, b :: Freq(more, a, b) == Freq(m, a, b) + if a == key && b == other then 1 else 0
  {
    var partners: map<string, int> := if key in m then m[key] else map[];
    more := m[key := partners[other := Get(partners, other) + 1]];
  }

  method UniquePaths(commit: Commit) returns (paths: seq<string>)
    ensures forall i, j :: 0 <= i < j < |paths| ==> paths[i] != paths[j]
    ensures forall p :: p in paths <==> Touches(commit, p)
  {
    paths := [];
    for k := 0 to |commit|
      invariant forall i, j :: 0 <= i < j < |paths| ==> paths[i] != paths[j]
      invariant forall p :: p in paths <==> Touches(commit[..k], p)
    {
      OneMoreRow(commit, k);
      hide Touches;
      if commit[k].path !in paths {
        paths := paths + [commit[k].path];
      }
    }
    assert commit[..|commit|] == commit;
  }

  lemma OneMoreRow(commit: Commit, k: nat)
    requires k < |commit|
    ensures forall p :: Touches(commit[..k + 1], p) <==> Touches(commit[..k], p) || p == commit[k].path
  {
    forall p
      ensures Touches(commit[..k + 1], p) <==> Touches(commit[..k], p) || p == commit[k].path
    {
      if i :| 0 <= i < k && commit[..k][i].path == p {
        assert commit[..k + 1][i].path == p;
      }
      assert commit[..k + 1][k] == commit[k];
    }
  }

  // The pairs (x, y), x before y, that the two loops have counted on reaching (i, j).
  predicate Counted(paths: seq<string>, i: nat, j: nat, a: string, b: string) {
    exists x, y :: 0 <= x < y < |paths| && (x < i || (x == i && y < j)) && IsPair(paths[x], paths[y], a, b)
  }

  predicate IsPair(p: string, q: string, a: string, b: string) {
    (p == a && q == b) || (p == b && q == a)
  }

  ghost predicate DistinctPaths(paths: seq<string>) {
    forall i, j :: 0 <= i < j < |paths| ==> paths[i] != paths[j]
  }

  lemma OneMorePair(paths: seq<string>, i: nat, j: nat, a: string, b: string)
    requires DistinctPaths(paths) && i < j < |paths|
    ensures Counted(paths, i, j + 1, a, b) <==> Counted(paths, i, j, a, b) || IsPair(paths[i], paths[j], a, b)
    ensures !(Counted(paths, i, j, a, b) && IsPair(paths[i], paths[j], a, b))
  {
    hide IsPair;
    if Counted(paths, i, j, a, b) {
      var x, y :| 0 <= x < y < |paths| && (x < i || (x == i && y < j)) && IsPair(paths[x], paths[y], a, b);
      assert Counted(paths, i, j + 1, a, b);
      OnePlace(paths, x, y, i, j, a, b);
    }
    if Counted(paths, i, j + 1, a, b) {
      var x, y :| 0 <= x < y < |paths| && (x < i || (x == i && y < j + 1)) && IsPair(paths[x], paths[y], a, b);
    }
  }

  // A pair of distinct paths stands at one place.
  lemma OnePlace(paths: seq<string>, x: nat, y: nat, i: nat, j: nat, a: string, b: string)
    requires DistinctPaths(paths) && x < y < |paths| && i < j < |paths| && (x, y) != (i, j)
    requires IsPair(paths[x], paths[y], a, b)
    ensures !IsPair(paths[i], paths[j], a, b)
  {
    if paths[x] == paths[i] {
      OneIndex(paths, x, i);
      if paths[y] == paths[j] {
        OneIndex(paths, y, j);
      }
    } else if paths[x] == paths[j] && paths[y] == paths[i] {
      OneIndex(paths, x, j);
      OneIndex(paths, y, i);
    }
  }

  lemma OneIndex(paths: seq<string>, x: nat, i: nat)
    requires DistinctPaths(paths) && x < |paths| && i < |paths| && paths[x] == paths[i]
    ensures x == i
  {
  }

  // The rows before the i-th, of which the first pairs are still to come.
  lemma RowBounds(paths: seq<string>, i: nat, a: string, b: string)
    ensures !Counted(paths, 0, 0, a, b)
    ensures Counted(paths, i, i + 1, a, b) <==> Counted(paths, i, 0, a, b)
    ensures Counted(paths, i, |paths|, a, b) <==> Counted(paths, i + 1, 0, a, b)
  {
    if Counted(paths, i, |paths|, a, b) {
      var x, y :| 0 <= x < y < |paths| && (x < i || (x == i && y < |paths|)) && IsPair(paths[x], paths[y], a, b);
      assert Counted(paths, i + 1, 0, a, b);
    }
    if Counted(paths, i, i + 1, a, b) {
      var x, y :| 0 <= x < y < |paths| && (x < i || (x == i && y < i + 1)) && IsPair(paths[x], paths[y], a, b);
      assert Counted(paths, i, 0, a, b);
    }
  }

  lemma AllPairs(paths: seq<string>, a: string, b: string)
    requires DistinctPaths(paths)
    ensures Counted(paths, |paths|, 0, a, b) <==> a != b && a in paths && b in paths
  {
    if a != b && a in paths && b in paths {
      var x :| 0 <= x < |paths| && paths[x] == a;
      var y :| 0 <= y < |paths| && paths[y] == b;
      if x < y {
        assert IsPair(paths[x], paths[y], a, b);
      } else {
        assert IsPair(paths[y], paths[x], a, b);
      }
    }
  }

  function One(b: bool): int {
    if b then 1 else 0
  }

  // Every pair of distinct files of one commit, counted once in each direction.
  method CountPairs(m: Frequencies, paths: seq<string>) returns (more: Frequencies)
    requires DistinctPaths(paths)
    ensures forall a, b :: Freq(more, a, b) == Freq(m, a, b) + One(a != b && a in paths && b in paths)
  {
    more := m;
    hide Freq, Counted;
    forall a, b ensures !Counted(paths, 0, 0, a, b) {
      RowBounds(paths, 0, a, b);
    }
    for i := 0 to |paths|
      invariant forall a, b :: Freq(more, a, b) == Freq(m, a, b) + One(Counted(paths, i, 0, a, b))
    {
      forall a, b
        ensures Counted(paths, i, i + 1, a, b) <==> Counted(paths, i, 0, a, b)
        ensures Counted(paths, i, |paths|, a, b) <==> Counted(paths, i + 1, 0, a, b)
      {
        RowBounds(paths, i, a, b);
      }
      for j := i + 1 to |paths|
        invariant forall a, b :: Freq(more, a, b) == Freq(m, a, b) + One(Counted(paths, i, j, a, b))
      {
        forall a, b
          ensures One(Counted(paths, i, j + 1, a, b)) == One(Counted(paths, i, j, a, b)) + One(IsPair(paths[i], paths[j], a, b))
        {
          OneMorePair(paths, i, j, a, b);
        }
        assert paths[i] != paths[j];
        more := Bump(more, paths[i], paths[j]);
        more := Bump(more, paths[j], paths[i]);
      }
    }
    forall a, b ensures Counted(paths, |paths|, 0, a, b) <==> a != b && a in paths && b in paths {
      AllPairs(paths, a, b);
    }
  }

  method AddChurn(churn: map<string, int>, commit: Commit) returns (more: map<string, int>)
    ensures forall p :: Get(more, p) == Get(churn, p) + ChurnIn(commit, p)
  {
    more := churn;
    for k := 0 to |commit|
      invariant forall p :: Get(more, p) == Get(churn, p) + ChurnIn(commit[..k], p)
    {
      assert commit[..k + 1][..k] == commit[..k];
      more := more[commit[k].path := Get(more, commit[k].path) + commit[k].churn];
    }
    assert commit[..|commit|] == commit;
  }

  datatype CoChangeMap = CoChangeMap(coChange: Frequencies, churn: map<string, int>, peak: int)

  ghost predicate IsPeak(m: Frequencies, peak: int) {
    && (forall a, b :: Freq(m, a, b) <= peak)
    && (peak == 0 || exists a, b :: Freq(m, a, b) == peak)
  }

  /** The counts, the churn and the largest count of a history. */
  method ParseNumstat(commits: seq<Commit>) returns (r: CoChangeMap)
    ensures forall a, b :: Freq(r.coChange, a, b) == SharedCommits(commits, a, b)
    ensures forall p :: Get(r.churn, p) == TotalChurn(commits, p)
    ensures IsPeak(r.coChange, r.peak) && r.peak >= 0
  {
    var m: Frequencies := map[];
    var churn: map<string, int> := map[];
    for k := 0 to |commits|
      invariant forall a, b :: Freq(m, a, b) == SharedCommits(commits[..k], a, b)
      invariant forall p :: Get(churn, p) == TotalChurn(commits[..k], p)
    {
      assert commits[..k + 1][..k] == commits[..k];
      hide Freq, Touches, ChurnIn, Get;
      churn := AddChurn(churn, commits[k]);
      if |commits[k]| > MaxFilesPerCommit {
        continue;
      }
      var paths := UniquePaths(commits[k]);
      m := CountPairs(m, paths);
    }
    assert commits[..|commits|] == commits;
    var peak := Peak(m);
    r := CoChangeMap(m, churn, peak);
  }

  method Peak(m: Frequencies) returns (peak: int)
    ensures IsPeak(m, peak) && peak >= 0
  {
    peak := 0;
    var files := m.Keys;
    while files != {}
      invariant files <= m.Keys && peak >= 0
      invariant forall a, b :: a in m && a !in files ==> Freq(m, a, b) <= peak
      invariant peak == 0 || exists a, b :: Freq(m, a, b) == peak
      decreases files
    {
      ghost var _ := SomeMember(files);
      var a :| a in files;
      files := files - {a};
      var partners := m[a].Keys;
      while partners != {}
        invariant partners <= m[a].Keys && peak >= 0
        invariant forall c, b :: c in m && c !in files && c != a ==> Freq(m, c, b) <= peak
        invariant forall b :: b in m[a] && b !in partners ==> Freq(m, a, b) <= peak
        invariant peak == 0 || exists c, b :: Freq(m, c, b) == peak
        decreases partners
      {
        ghost var _ := SomeMember(partners);
        var b :| b in partners;
        partners := partners - {b};
        assert Freq(m, a, b) == m[a][b];
        peak := Max(peak, m[a][b]);
      }
    }
  }

  // ---------- How strongly a file co-changes with the edited ones ----------

  lemma RatioFacts(hits: int, peak: int)
    requires 0 <= hits <= peak && peak > 0
    ensures var r := hits as real / peak as real;
      0.0 <= r <= 1.0 && (r == 0.0 <==> hits == 0) && (r == 1.0 <==> hits == peak) && r * peak as real == hits as real
  {
    var r := hits as real / peak as real;
    assert r * peak as real == hits as real;
    AtLeastItself(r, peak as real);
  }

  lemma AtLeastItself(r: real, p: real)
    requires p > 0.0
    ensures r >= 1.0 ==> r * p >= p
  {
  }

  // The file was in a commit with the changed one, which is another file, `n` times.
  predicate Pairs(m: CoChangeMap, file: string, other: string, n: int) {
    other != file && Freq(m.coChange, file, other) == n
  }

  method CoChangeStrength(m: CoChangeMap, file: string, changed: seq<string>) returns (strength: real)
    requires IsPeak(m.coChange, m.peak) && m.peak >= 0
    requires forall a, b :: Freq(m.coChange, a, b) >= 0
    ensures 0.0 <= strength <= 1.0
    ensures strength == 0.0 <==> forall c :: c in changed && c != file ==> Freq(m.coChange, file, c) == 0
    ensures strength == 1.0 <==> (m.peak > 0 && exists c :: c in changed && Pairs(m, file, c, m.peak))
    ensures m.peak > 0 ==> forall c :: c in changed && c != file ==> Freq(m.coChange, file, c) as real <= strength * m.peak as real
  {
    hide IsPeak;
    if file !in m.coChange || |changed| == 0 || m.peak == 0 {
      assert m.peak == 0 ==> forall c :: Freq(m.coChange, file, c) == 0 by {
        PeakBounds(m);
      }
      return 0.0;
    }
    PeakBounds(m);
    var hits := 0;
    for k := 0 to |changed|
      invariant 0 <= hits <= m.peak
      invariant forall c :: c in changed[..k] && c != file ==> Freq(m.coChange, file, c) <= hits
      invariant hits == 0 || exists c :: c in changed[..k] && Pairs(m, file, c, hits)
    {
      assert changed[..k + 1] == changed[..k] + [changed[k]];
      if changed[k] != file {
        var n := Get(m.coChange[file], changed[k]);
        assert Pairs(m, file, changed[k], n);
        hits := Max(hits, n);
      }
    }
    assert changed[..|changed|] == changed;
    RatioFacts(hits, m.peak);
    strength := hits as real / m.peak as real;
  }

  lemma PeakBounds(m: CoChangeMap)
    requires IsPeak(m.coChange, m.peak)
    ensures forall a, b :: Freq(m.coChange, a, b) <= m.peak
  {
  }

  lemma {:induction false} SharedCommitsAreSymmetric(commits: seq<Commit>, a: string, b: string)
    ensures SharedCommits(commits, a, b) == SharedCommits(commits, b, a)
    ensures 0 <= SharedCommits(commits, a, b) <= |commits| && SharedCommits(commits, a, a) == 0
  {
    if commits != [] {
      SharedCommitsAreSymmetric(commits[..|commits| - 1], a, b);
    }
  }
}
