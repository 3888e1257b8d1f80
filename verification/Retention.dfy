/** Pruning stored tool outputs while honouring holds (content-store/src/store.ts,
    context-gate/src/retention-prune.ts). */
module Retention {
  import opened Prelude

  // ---------- Addresses ----------

  const Slash := '/'

  function ChunkSetKey(topDir: string, sessionDir: string, chunkSetId: string): string {
    topDir + "/" + sessionDir + "/" + chunkSetId
  }

  lemma CharsOfKey(t: string, s: string, i: string, k: nat)
    requires k < |t| + |s| + |i| + 2
    ensures |ChunkSetKey(t, s, i)| == |t| + |s| + |i| + 2
    ensures ChunkSetKey(t, s, i)[k] ==
      if k < |t| then t[k] else if k == |t| then Slash
      else if k < |t| + 1 + |s| then s[k - |t| - 1] else if k == |t| + 1 + |s| then Slash
      else i[k - |t| - |s| - 2]
  {
  }

  // The two slashes of a key are its only ones.
  lemma OnlySlashesOfKey(t: string, s: string, i: string, k: nat)
    requires Slash !in t && Slash !in s && Slash !in i && k < |t| + |s| + |i| + 2
    ensures ChunkSetKey(t, s, i)[k] == Slash <==> k == |t| || k == |t| + 1 + |s|
  {
    CharsOfKey(t, s, i, k);
    if k < |t| {
      assert t[k] in t;
    } else if |t| < k < |t| + 1 + |s| {
      assert s[k - |t| - 1] in s;
    } else if |t| + 1 + |s| < k {
      assert i[k - |t| - |s| - 2] in i;
    }
  }

  /** The address of a real file, whose names have no slash, is no other address's. */
  lemma ChunkSetKeyIsInjective(t: string, s: string, i: string, t': string, s': string, i': string)
    requires Slash !in t && Slash !in s && Slash !in i
    ensures ChunkSetKey(t, s, i) == ChunkSetKey(t', s', i') <==> t == t' && s == s' && i == i'
  {
    if ChunkSetKey(t, s, i) == ChunkSetKey(t', s', i') {
      var key := ChunkSetKey(t, s, i);
      CharsOfKey(t, s, i, 0);
      CharsOfKey(t', s', i', |t'|);
      CharsOfKey(t', s', i', |t'| + 1 + |s'|);
      OnlySlashesOfKey(t, s, i, |t'|);
      OnlySlashesOfKey(t, s, i, |t'| + 1 + |s'|);
      assert |t'| == |t| && |s'| == |s|;
      assert key[..|t|] == t && ChunkSetKey(t', s', i')[..|t|] == t';
      assert key[|t| + 1..|t| + 1 + |s|] == s && ChunkSetKey(t', s', i')[|t| + 1..|t| + 1 + |s|] == s';
      assert key[|t| + |s| + 2..] == i && ChunkSetKey(t', s', i')[|t| + |s| + 2..] == i';
    }
  }

  lemma KeyIsNoBareId(t: string, s: string, i: string, id: string)
    requires Slash !in id
    ensures ChunkSetKey(t, s, i) != id
  {
    CharsOfKey(t, s, i, |t|);
    assert ChunkSetKey(t, s, i)[|t|] in ChunkSetKey(t, s, i);
  }

  // ---------- Names ----------

  predicate IsDigit(c: char) {
    '0' <= c <= '9'
  }

  predicate IsLowerAlnum(c: char) {
    IsDigit(c) || 'a' <= c <= 'z'
  }

  predicate EndsWithJson(name: string) {
    |name| >= 5 && name[|name| - 5..] == ".json"
  }

  // `<prefix><digits>-<six of a-z0-9>.json`
  predicate IsStamped(prefix: string, name: string) {
    && |name| >= |prefix| + 13
    && name[..|prefix|] == prefix
    && EndsWithJson(name)
    && name[|name| - 12] == '-'
    && (forall k :: |prefix| <= k < |name| - 12 ==> IsDigit(name[k]))
    && (forall k :: |name| - 11 <= k < |name| - 5 ==> IsLowerAlnum(name[k]))
  }

  // The names a sweep leaves alone: siblings of the chunk sets, and anything that is not JSON.
  predicate IsChunkSetName(name: string) {
    && EndsWithJson(name)
    && name != "read-index.json" && name != "shown-index.json" && name != "work-state-capsule.json"
    && !IsStamped("preflight-", name) && !IsStamped("fork-", name)
  }

  function ChunkSetIdOf(name: string): string
    requires EndsWithJson(name)
  {
    name[..|name| - 5]
  }

  // ---------- The store ----------

  // None: the file cannot be read as a chunk set, or cannot be examined at all.
  datatype File = File(modifiedAt: Option<int>, createdAt: Option<int>)

  type Session = map<string, File>
  type Content = map<string, map<string, Session>>

  predicate IsKept(top: string, session: string, name: string, keep: set<string>)
    requires EndsWithJson(name)
  {
    ChunkSetKey(top, session, ChunkSetIdOf(name)) in keep || ChunkSetIdOf(name) in keep
  }

  predicate OlderByBoth(f: File, cutoff: int) {
    f.modifiedAt.Some? && f.modifiedAt.value < cutoff && f.createdAt.Some? && f.createdAt.value < cutoff
  }

  // What a sweep deletes.
  predicate Expires(top: string, session: string, name: string, f: File, cutoff: int, keep: set<string>) {
    IsChunkSetName(name) && !IsKept(top, session, name, keep) && OlderByBoth(f, cutoff)
  }

  function SweptSession(top: string, session: string, files: Session, cutoff: int, keep: set<string>): Session {
    map name | name in files && !Expires(top, session, name, files[name], cutoff, keep) :: files[name]
  }

  // Emptied directories go with their files.
  function SweptTop(top: string, sessions: map<string, Session>, cutoff: int, keep: set<string>): map<string, Session> {
    map s | s in sessions && SweptSession(top, s, sessions[s], cutoff, keep) != map[] ::
      SweptSession(top, s, sessions[s], cutoff, keep)
  }

  function Swept(content: Content, cutoff: int, keep: set<string>): Content {
    map t | t in content && SweptTop(t, content[t], cutoff, keep) != map[] :: SweptTop(t, content[t], cutoff, keep)
  }

  datatype Path = Path(top: string, session: string, name: string)

  function PathsOf(content: Content): set<Path> {
    set t, s, n | t in content && s in content[t] && n in content[t][s] :: Path(t, s, n)
  }

  function FileAt(content: Content, p: Path): File
    requires p in PathsOf(content)
  {
    content[p.top][p.session][p.name]
  }

  lemma SweptPaths(content: Content, cutoff: int, keep: set<string>, p: Path)
    ensures p in PathsOf(Swept(content, cutoff, keep)) <==>
      p in PathsOf(content) && !Expires(p.top, p.session, p.name, FileAt(content, p), cutoff, keep)
    ensures p in PathsOf(Swept(content, cutoff, keep)) ==>
      FileAt(Swept(content, cutoff, keep), p) == FileAt(content, p)
  {
    hide Expires;
    if p in PathsOf(content) && !Expires(p.top, p.session, p.name, FileAt(content, p), cutoff, keep) {
      var files := SweptSession(p.top, p.session, content[p.top][p.session], cutoff, keep);
      assert p.name in files;
      assert p.session in SweptTop(p.top, content[p.top], cutoff, keep);
    }
  }

  // ---------- Sweeping ----------

  // A directory of which the names in `todo` have yet to be looked at.
  ghost function PartSession(top: string, session: string, files: Session, todo: set<string>, cutoff: int,
                             keep: set<string>): Session {
    map name | name in files && (name in todo || !Expires(top, session, name, files[name], cutoff, keep)) :: files[name]
  }

  lemma PartSessionStep(top: string, session: string, files: Session, todo: set<string>, name: string, cutoff: int,
                        keep: set<string>)
    requires name in todo && todo <= files.Keys
    ensures var part := PartSession(top, session, files, todo, cutoff, keep);
      PartSession(top, session, files, todo - {name}, cutoff, keep) ==
        if Expires(top, session, name, files[name], cutoff, keep) then part - {name} else part
  {
    hide Expires;
  }

  ghost function PartTop(top: string, sessions: map<string, Session>, todo: set<string>, cutoff: int,
                         keep: set<string>): map<string, Session> {
    map s | s in sessions && (s in todo || SweptSession(top, s, sessions[s], cutoff, keep) != map[]) ::
      if s in todo then sessions[s] else SweptSession(top, s, sessions[s], cutoff, keep)
  }

  lemma PartTopStep(top: string, sessions: map<string, Session>, todo: set<string>, s: string, cutoff: int,
                    keep: set<string>)
    requires s in todo && todo <= sessions.Keys
    ensures var part, swept := PartTop(top, sessions, todo, cutoff, keep), SweptSession(top, s, sessions[s], cutoff, keep);
      PartTop(top, sessions, todo - {s}, cutoff, keep) == if swept == map[] then part - {s} else part[s := swept]
  {
    hide SweptSession;
  }

  ghost function PartContent(content: Content, todo: set<string>, cutoff: int, keep: set<string>): Content {
    map t | t in content && (t in todo || SweptTop(t, content[t], cutoff, keep) != map[]) ::
      if t in todo then content[t] else SweptTop(t, content[t], cutoff, keep)
  }

  lemma PartContentStep(content: Content, todo: set<string>, t: string, cutoff: int, keep: set<string>)
    requires t in todo && todo <= content.Keys
    ensures var part, swept := PartContent(content, todo, cutoff, keep), SweptTop(t, content[t], cutoff, keep);
      PartContent(content, todo - {t}, cutoff, keep) == if swept == map[] then part - {t} else part[t := swept]
  {
    hide SweptTop;
  }

  lemma OneFileLess(content: Content, p: Path)
    requires p in PathsOf(content)
    ensures var less := content[p.top := content[p.top][p.session := content[p.top][p.session] - {p.name}]];
      |PathsOf(less)| == |PathsOf(content)| - 1
  {
    var less := content[p.top := content[p.top][p.session := content[p.top][p.session] - {p.name}]];
    assert PathsOf(less) == PathsOf(content) - {p};
  }

  lemma EmptySessionHasNoPaths(content: Content, t: string, s: string)
    requires t in content && s in content[t] && content[t][s] == map[]
    ensures PathsOf(content[t := content[t] - {s}]) == PathsOf(content)
  {
  }

  lemma EmptyTopHasNoPaths(content: Content, t: string)
    requires t in content && content[t] == map[]
    ensures PathsOf(content - {t}) == PathsOf(content)
  {
  }

  function WithSession(content: Content, top: string, session: string, files: Session): Content
    requires top in content
  {
    content[top := content[top][session := files]]
  }

  lemma WithSessionIsItself(content: Content, top: string, session: string)
    requires top in content && session in content[top]
    ensures WithSession(content, top, session, content[top][session]) == content
  {
    assert content[top][session := content[top][session]] == content[top];
  }

  lemma WithSessionTwice(content: Content, top: string, session: string, f1: Session, f2: Session)
    requires top in content
    ensures WithSession(WithSession(content, top, session, f1), top, session, f2) == WithSession(content, top, session, f2)
  {
    assert content[top][session := f1][session := f2] == content[top][session := f2];
  }

  // A session directory after the sweep: gone when nothing is left in it.
  function SetSession(sessions: map<string, Session>, session: string, swept: Session): map<string, Session> {
    if swept == map[] then sessions - {session} else sessions[session := swept]
  }

  function SetTop(content: Content, top: string, swept: map<string, Session>): Content {
    if swept == map[] then content - {top} else content[top := swept]
  }

  lemma PartSessionEnds(top: string, session: string, files: Session, cutoff: int, keep: set<string>)
    ensures PartSession(top, session, files, files.Keys, cutoff, keep) == files
    ensures PartSession(top, session, files, {}, cutoff, keep) == SweptSession(top, session, files, cutoff, keep)
  {
    hide Expires;
  }

  lemma PartTopEnds(top: string, sessions: map<string, Session>, cutoff: int, keep: set<string>)
    ensures PartTop(top, sessions, sessions.Keys, cutoff, keep) == sessions
    ensures PartTop(top, sessions, {}, cutoff, keep) == SweptTop(top, sessions, cutoff, keep)
  {
    hide SweptSession;
  }

  lemma PartContentEnds(content: Content, cutoff: int, keep: set<string>)
    ensures PartContent(content, content.Keys, cutoff, keep) == content
    ensures PartContent(content, {}, cutoff, keep) == Swept(content, cutoff, keep)
  {
    hide SweptTop;
  }

  class ContentStore {
    var content: Content

    method SweepSession(top: string, session: string, cutoff: int, keep: set<string>) returns (removed: nat)
      requires top in content && session in content[top]
      modifies this
      ensures content == old(content)[top := SetSession(old(content)[top], session,
        SweptSession(top, session, old(content)[top][session], cutoff, keep))]
      ensures |PathsOf(content)| + removed == |PathsOf(old(content))|
    {
      hide Expires, PathsOf, SweptSession, PartSession;
      removed := 0;
      ghost var start := content;
      var files := content[top][session];
      var todo := files.Keys;
      PartSessionEnds(top, session, files, cutoff, keep);
      WithSessionIsItself(start, top, session);
      while todo != {}
        invariant todo <= files.Keys
        invariant content == WithSession(start, top, session, PartSession(top, session, files, todo, cutoff, keep))
        invariant |PathsOf(content)| + removed == |PathsOf(start)|
        decreases todo
      {
        ghost var _ := SomeMember(todo);
        var name :| name in todo;
        PartSessionStep(top, session, files, todo, name, cutoff, keep);
        ghost var before := todo;
        todo := todo - {name};
        if Expires(top, session, name, files[name], cutoff, keep) {
          NameIsThere(content, top, session, files, name, before, cutoff, keep);
          OneFileLess(content, Path(top, session, name));
          WithSessionTwice(start, top, session, content[top][session], content[top][session] - {name});
          content := content[top := content[top][session := content[top][session] - {name}]];
          removed := removed + 1;
        }
      }
      if content[top][session] == map[] {
        EmptySessionHasNoPaths(content, top, session);
        ForgetSession(start, top, session, content[top][session]);
        content := content[top := content[top] - {session}];
      }
    }

    method SweepTop(top: string, cutoff: int, keep: set<string>) returns (removed: nat)
      requires top in content
      modifies this
      ensures content == SetTop(old(content), top, SweptTop(top, old(content)[top], cutoff, keep))
      ensures |PathsOf(content)| + removed == |PathsOf(old(content))|
    {
      hide PathsOf, SweptSession, PartTop, SweptTop;
      removed := 0;
      ghost var start := content;
      var sessions := content[top];
      var todo := sessions.Keys;
      PartTopEnds(top, sessions, cutoff, keep);
      assert start == start[top := sessions];
      while todo != {}
        invariant todo <= sessions.Keys
        invariant content == start[top := PartTop(top, sessions, todo, cutoff, keep)]
        invariant |PathsOf(content)| + removed == |PathsOf(start)|
        decreases todo
      {
        ghost var _ := SomeMember(todo);
        var session :| session in todo;
        PartTopStep(top, sessions, todo, session, cutoff, keep);
        TodoIsThere(top, sessions, todo, session, cutoff, keep);
        todo := todo - {session};
        var more := SweepSession(top, session, cutoff, keep);
        removed := removed + more;
      }
      if content[top] == map[] {
        EmptyTopHasNoPaths(content, top);
        content := content - {top};
        assert content == start - {top};
      }
    }

    /** Deletes what has expired and is not kept, and the directories this empties; counts the files deleted. */
    method PruneOlderThan(cutoff: int, keep: set<string>) returns (removed: nat)
      modifies this
      ensures content == Swept(old(content), cutoff, keep)
      ensures |PathsOf(content)| + removed == |PathsOf(old(content))|
    {
      hide PathsOf, SweptTop, PartContent, Swept;
      removed := 0;
      ghost var start := content;
      var todo := content.Keys;
      PartContentEnds(start, cutoff, keep);
      while todo != {}
        invariant todo <= start.Keys
        invariant content == PartContent(start, todo, cutoff, keep)
        invariant |PathsOf(content)| + removed == |PathsOf(start)|
        decreases todo
      {
        ghost var _ := SomeMember(todo);
        var top :| top in todo;
        PartContentStep(start, todo, top, cutoff, keep);
        TopIsThere(start, todo, top, cutoff, keep);
        todo := todo - {top};
        var more := SweepTop(top, cutoff, keep);
        removed := removed + more;
      }
    }
  }

  lemma ForgetSession(content: Content, top: string, session: string, files: Session)
    requires top in content
    ensures var held := WithSession(content, top, session, files);
      held[top := held[top] - {session}] == content[top := content[top] - {session}]
  {
    assert content[top][session := files] - {session} == content[top] - {session};
  }

  lemma TodoIsThere(top: string, sessions: map<string, Session>, todo: set<string>, session: string, cutoff: int,
                    keep: set<string>)
    requires session in todo && todo <= sessions.Keys
    ensures var part := PartTop(top, sessions, todo, cutoff, keep);
      session in part && part[session] == sessions[session]
  {
  }

  lemma TopIsThere(content: Content, todo: set<string>, top: string, cutoff: int, keep: set<string>)
    requires top in todo && todo <= content.Keys
    ensures var part := PartContent(content, todo, cutoff, keep); top in part && part[top] == content[top]
  {
  }

  lemma NameIsThere(content: Content, top: string, session: string, files: Session, name: string, todo: set<string>,
                    cutoff: int, keep: set<string>)
    requires top in content && session in content[top] && name in files && name in todo
    requires content[top][session] == PartSession(top, session, files, todo, cutoff, keep)
    ensures Path(top, session, name) in PathsOf(content)
  {
    hide Expires;
  }
}
