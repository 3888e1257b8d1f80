/** Retention pruning that honours evidence holds (context-gate/src/retention-prune.ts). */
module RetentionHolds {
  import opened Prelude
  import opened Retention

  datatype SessionRef = Live(id: string) | Durable(id: string)
  datatype RetentionClass = Transient | SessionLong | Pinned | ManualHold
  datatype Record = Record(
    workspaceKey: string,
    sessionRef: Option<SessionRef>,
    chunkSetId: Option<string>,
    retention: RetentionClass,
    available: bool)

  // A record file: what it holds, or one that cannot be read, parsed or belongs to another workspace.
  datatype RecordFile = Good(record: Record) | Bad

  // A workspace's directory of record files; the listing of it may fail whatever it holds.
  datatype WorkspaceDir = WorkspaceDir(listable: bool, files: seq<RecordFile>)

  datatype Ledger = Ledger(listable: bool, entries: map<string, WorkspaceDir>)

  datatype LedgerError = CorruptLedger(entry: string)

  // Sixteen lower-case hexadecimal digits.
  predicate IsWorkspaceKey(entry: string) {
    |entry| == 16 && forall k :: 0 <= k < 16 ==> IsDigit(entry[k]) || 'a' <= entry[k] <= 'f'
  }

  predicate Holds(r: Record) {
    r.available && (r.retention == Pinned || r.retention == ManualHold) && r.chunkSetId.Some?
  }

  predicate IsScoped(r: Record) {
    r.sessionRef.Some? && r.sessionRef.value.Live?
  }

  // A hold scoped to a live session names one file; any other names every copy.
  function KeyOf(r: Record): string
    requires Holds(r)
  {
    if IsScoped(r)
    then ChunkSetKey(r.workspaceKey, r.sessionRef.value.id, r.chunkSetId.value)
    else r.chunkSetId.value
  }

  // The hold is on disk, whether or not a listing shows it.
  ghost predicate InForce(ledger: Ledger, r: Record) {
    Holds(r) && exists w :: w in ledger.entries && IsWorkspaceKey(w) && Good(r) in ledger.entries[w].files
  }

  // What the two listings show: a listing that fails shows nothing.
  function Shown(ledger: Ledger): Ledger {
    ledger.(entries :=
      if !ledger.listable then map[]
      else map w | w in ledger.entries && IsWorkspaceKey(w) && ledger.entries[w].listable :: ledger.entries[w])
  }

  // No shown record file is bad.
  ghost predicate Readable(ledger: Ledger) {
    forall w :: w in Shown(ledger).entries ==> Bad !in ledger.entries[w].files
  }

  // Every listing that matters succeeds.
  predicate AllListed(ledger: Ledger) {
    forall w :: w in ledger.entries && IsWorkspaceKey(w) ==> ledger.listable && ledger.entries[w].listable
  }

  // The file a hold is about.
  ghost predicate Protects(r: Record, p: Path)
    requires Holds(r) && EndsWithJson(p.name)
  {
    && r.chunkSetId.value == ChunkSetIdOf(p.name)
    && (IsScoped(r) ==>
          r.workspaceKey == p.top && r.sessionRef.value.id == p.session)
  }

  ghost predicate Protected(ledger: Ledger, p: Path) {
    EndsWithJson(p.name) && exists r :: InForce(ledger, r) && Protects(r, p)
  }

  // No name in the file system has a slash in it.
  ghost predicate SafeNames(content: Content) {
    forall p :: p in PathsOf(content) ==> Slash !in p.top && Slash !in p.session && Slash !in p.name
  }

  // Ids have no slash; a hand-edited unscoped one might.
  ghost predicate SafeBareIds(ledger: Ledger) {
    forall r :: InForce(ledger, r) && !IsScoped(r) ==> Slash !in r.chunkSetId.value
  }

  ghost predicate IsHeldSet(ledger: Ledger, held: set<string>) {
    forall k :: k in held <==> exists r :: InForce(ledger, r) && KeyOf(r) == k
  }

  lemma ProtectsByKey(r: Record, p: Path)
    requires Holds(r) && EndsWithJson(p.name) && Slash !in p.top && Slash !in p.session && Slash !in p.name
    ensures var id := ChunkSetIdOf(p.name);
      && (Protects(r, p) ==> KeyOf(r) == ChunkSetKey(p.top, p.session, id) || KeyOf(r) == id)
      && (IsScoped(r) || Slash !in r.chunkSetId.value ==>
            (KeyOf(r) == ChunkSetKey(p.top, p.session, id) || KeyOf(r) == id ==> Protects(r, p)))
  {
    var id := ChunkSetIdOf(p.name);
    assert p.name == id + p.name[|p.name| - 5..];
    assert Slash !in id;
    if IsScoped(r) {
      ChunkSetKeyIsInjective(p.top, p.session, id, r.workspaceKey, r.sessionRef.value.id, r.chunkSetId.value);
      KeyIsNoBareId(r.workspaceKey, r.sessionRef.value.id, r.chunkSetId.value, id);
    } else if Slash !in r.chunkSetId.value {
      KeyIsNoBareId(p.top, p.session, id, r.chunkSetId.value);
    }
  }

  /** The held keys keep every protected file, and no other when unscoped ids have no slash: in particular a
      live session's hold never keeps another session's copy of the same id. */
  lemma KeptIffProtected(ledger: Ledger, held: set<string>, p: Path)
    requires IsHeldSet(ledger, held)
    requires EndsWithJson(p.name) && Slash !in p.top && Slash !in p.session && Slash !in p.name
    ensures Protected(ledger, p) ==> IsKept(p.top, p.session, p.name, held)
    ensures SafeBareIds(ledger) && IsKept(p.top, p.session, p.name, held) ==> Protected(ledger, p)
  {
    hide KeyOf, Protects, InForce;
    var id := ChunkSetIdOf(p.name);
    forall r | InForce(ledger, r)
      ensures Holds(r)
      ensures Protects(r, p) ==> KeyOf(r) == ChunkSetKey(p.top, p.session, id) || KeyOf(r) == id
      ensures SafeBareIds(ledger) && (KeyOf(r) == ChunkSetKey(p.top, p.session, id) || KeyOf(r) == id) ==> Protects(r, p)
    {
      InForceHolds(ledger, r);
      ProtectsByKey(r, p);
    }
  }

  lemma InForceHolds(ledger: Ledger, r: Record)
    requires InForce(ledger, r)
    ensures Holds(r)
  {
  }

  method HeldChunkSetKeys(ledger: Ledger) returns (held: Result<set<string>, LedgerError>)
    ensures held.Ok? <==> Readable(ledger)
    ensures held.Ok? ==> IsHeldSet(Shown(ledger), held.value)
  {
    var keys: set<string> := {};
    if !ledger.listable {
      return Ok(keys);
    }
    ghost var shown := Shown(ledger);
    var todo := ledger.entries.Keys;
    while todo != {}
      invariant todo <= ledger.entries.Keys
      invariant forall w :: w in shown.entries && w !in todo ==> Bad !in shown.entries[w].files
      invariant forall w, r :: w in shown.entries && w !in todo && Good(r) in shown.entries[w].files && Holds(r) ==>
        KeyOf(r) in keys
      invariant forall k :: k in keys ==> exists r :: InForce(shown, r) && KeyOf(r) == k
      decreases todo
    {
      ghost var _ := SomeMember(todo);
      var entry :| entry in todo;
      todo := todo - {entry};
      if !IsWorkspaceKey(entry) {
        continue;
      }
      // The ledger answers a directory it cannot list with no records.
      if !ledger.entries[entry].listable {
        continue;
      }
      var files := ledger.entries[entry].files;
      assert entry in shown.entries && shown.entries[entry].files == files;
      if Bad in files {
        return Err(CorruptLedger(entry));
      }
      var more := KeysOf(files);
      assert forall r :: Good(r) in files && Holds(r) ==> InForce(shown, r);
      keys := keys + more;
    }
    held := Ok(keys);
  }

  method KeysOf(files: seq<RecordFile>) returns (keys: set<string>)
    requires Bad !in files
    ensures forall k :: k in keys <==> exists r :: Good(r) in files && Holds(r) && KeyOf(r) == k
  {
    keys := {};
    for i := 0 to |files|
      invariant forall k :: k in keys <==> exists r :: Good(r) in files[..i] && Holds(r) && KeyOf(r) == k
    {
      assert files[i] in files;
      var r := files[i].record;
      hide KeyOf, Holds;
      assert files[..i + 1] == files[..i] + [Good(r)];
      if Holds(r) {
        keys := keys + {KeyOf(r)};
      }
    }
    assert files[..|files|] == files;
  }

  /** What a prune leaves of a store: exactly the files that are young, unreadable, not chunk sets, or protected. */
  ghost predicate PrunedTo(before: Content, after: Content, ledger: Ledger, cutoff: int) {
    && (forall p :: p in PathsOf(after) ==> p in PathsOf(before) && FileAt(after, p) == FileAt(before, p))
    && (forall p :: p in PathsOf(before) ==>
          (p in PathsOf(after) <==>
            !IsChunkSetName(p.name) || !OlderByBoth(FileAt(before, p), cutoff) || Protected(ledger, p)))
  }

  // The same, when an unscoped id might keep more.
  ghost predicate PrunedAtMostTo(before: Content, after: Content, ledger: Ledger, cutoff: int) {
    && (forall p :: p in PathsOf(after) ==> p in PathsOf(before) && FileAt(after, p) == FileAt(before, p))
    && Honours(before, after, ledger)
  }

  // Every file a hold on disk is about survives.
  ghost predicate Honours(before: Content, after: Content, ledger: Ledger) {
    forall p :: p in PathsOf(before) && Protected(ledger, p) ==> p in PathsOf(after)
  }

  lemma SweepHonoursHolds(content: Content, ledger: Ledger, held: set<string>, cutoff: int)
    requires SafeNames(content) && IsHeldSet(ledger, held)
    ensures PrunedAtMostTo(content, Swept(content, cutoff, held), ledger, cutoff)
    ensures SafeBareIds(ledger) ==> PrunedTo(content, Swept(content, cutoff, held), ledger, cutoff)
  {
    hide IsHeldSet, IsKept, Swept, PathsOf, SafeBareIds, Protected, OlderByBoth, IsStamped;
    forall p
      ensures p in PathsOf(Swept(content, cutoff, held)) ==>
        p in PathsOf(content) && FileAt(Swept(content, cutoff, held), p) == FileAt(content, p)
      ensures p in PathsOf(content) && Protected(ledger, p) ==> p in PathsOf(Swept(content, cutoff, held))
      ensures p in PathsOf(content) && SafeBareIds(ledger) ==>
        (p in PathsOf(Swept(content, cutoff, held)) <==>
          !IsChunkSetName(p.name) || !OlderByBoth(FileAt(content, p), cutoff) || Protected(ledger, p))
    {
      SweptPaths(content, cutoff, held, p);
      if p in PathsOf(content) && EndsWithJson(p.name) {
        KeptIffProtected(ledger, held, p);
      }
    }
  }

  method PruneChunkSetsHonoringPins(store: ContentStore, ledger: Ledger, cutoff: int)
    returns (removed: Result<nat, LedgerError>)
    requires SafeNames(store.content)
    modifies store
    ensures removed.Ok? <==> Readable(ledger)
    // A bad record file stops the prune before it deletes anything; a failing listing does not.
    ensures removed.Err? ==> store.content == old(store.content)
    ensures removed.Ok? ==>
      && |PathsOf(store.content)| + removed.value == |PathsOf(old(store.content))|
      && PrunedAtMostTo(old(store.content), store.content, Shown(ledger), cutoff)
      && (SafeBareIds(Shown(ledger)) ==> PrunedTo(old(store.content), store.content, Shown(ledger), cutoff))
  {
    hide SafeBareIds, PrunedTo, PrunedAtMostTo, Readable, IsHeldSet, Swept, PathsOf, Shown;
    var held := HeldChunkSetKeys(ledger);
    if held.Err? {
      return Err(held.error);
    }
    SweepHonoursHolds(store.content, Shown(ledger), held.value, cutoff);
    var n := store.PruneOlderThan(cutoff, held.value);
    removed := Ok(n);
  }

  // ---------- When every hold is honoured ----------

  // What a prune may leave behind, as its contract states it.
  ghost predicate PruneResult(before: Content, after: Content, ledger: Ledger, cutoff: int) {
    if Readable(ledger) then
      && PrunedAtMostTo(before, after, Shown(ledger), cutoff)
      && (SafeBareIds(Shown(ledger)) ==> PrunedTo(before, after, Shown(ledger), cutoff))
    else after == before
  }

  // Which listings succeed, and nothing about the records.
  datatype Listings = Listings(root: bool, entries: map<string, bool>)

  ghost predicate HasListings(ledger: Ledger, l: Listings) {
    && ledger.listable == l.root && ledger.entries.Keys == l.entries.Keys
    && forall w :: w in l.entries ==> ledger.entries[w].listable == l.entries[w]
  }

  // No prune loses a file to a failing listing, whatever records and files there are.
  ghost predicate NeverLosesHolds(l: Listings) {
    forall ledger, before, after, cutoff ::
      HasListings(ledger, l) && SafeNames(before) && PruneResult(before, after, ledger, cutoff) ==>
        Honours(before, after, ledger)
  }

  lemma ListedHoldsAreShown(ledger: Ledger, r: Record)
    requires AllListed(ledger)
    ensures InForce(ledger, r) <==> InForce(Shown(ledger), r)
  {
    if InForce(ledger, r) {
      var w :| w in ledger.entries && IsWorkspaceKey(w) && Good(r) in ledger.entries[w].files;
      assert w in Shown(ledger).entries;
    }
  }

  lemma ListedPruneHonoursHolds(before: Content, after: Content, ledger: Ledger, cutoff: int)
    requires AllListed(ledger) && PruneResult(before, after, ledger, cutoff)
    ensures Honours(before, after, ledger)
  {
    if Readable(ledger) {
      hide InForce, Shown;
      forall p | p in PathsOf(before) && Protected(ledger, p)
        ensures Protected(Shown(ledger), p)
      {
        var r :| InForce(ledger, r) && Protects(r, p);
        ListedHoldsAreShown(ledger, r);
      }
    }
  }

  // A pinned, long expired chunk file of workspace w, whose record is the only one.
  const PinnedId := "c"
  const PinnedSession := "s"

  function PinnedRecord(w: string): Record {
    Record(w, Some(Live(PinnedSession)), Some(PinnedId), Pinned, true)
  }

  function PinnedLedger(l: Listings, w: string): Ledger {
    Ledger(l.root, map e | e in l.entries :: WorkspaceDir(l.entries[e], if e == w then [Good(PinnedRecord(w))] else []))
  }

  function PinnedContent(w: string): Content {
    map[w := map[PinnedSession := map[PinnedId + ".json" := File(Some(0), Some(0))]]]
  }

  /** When the listing of a workspace's records, or of the workspaces, fails, a prune deletes a chunk file that
      is pinned. */
  lemma UnlistedPinIsDeleted(l: Listings, w: string, after: Content)
    requires w in l.entries && IsWorkspaceKey(w) && !(l.root && l.entries[w])
    requires PruneResult(PinnedContent(w), after, PinnedLedger(l, w), 1)
    ensures var p := Path(w, PinnedSession, PinnedId + ".json");
      Protected(PinnedLedger(l, w), p) && p in PathsOf(PinnedContent(w)) && p !in PathsOf(after)
  {
    var ledger, p := PinnedLedger(l, w), Path(w, PinnedSession, PinnedId + ".json");
    assert Protected(ledger, p) by {
      assert Good(PinnedRecord(w)) in ledger.entries[w].files;
      assert InForce(ledger, PinnedRecord(w)) && Protects(PinnedRecord(w), p);
    }
    forall r ensures !InForce(Shown(ledger), r) {
    }
    assert Readable(ledger) && SafeBareIds(Shown(ledger)) && !Protected(Shown(ledger), p);
    assert IsChunkSetName(p.name);
  }

  /** A prune honours every hold on disk, whatever the records and the stored files, exactly when the listing of
      each workspace's records succeeds, and that of the workspaces unless there are none. */
  lemma HoldsAreHonouredIffListed(l: Listings)
    ensures NeverLosesHolds(l) <==> forall w :: w in l.entries && IsWorkspaceKey(w) ==> l.root && l.entries[w]
  {
    if forall w :: w in l.entries && IsWorkspaceKey(w) ==> l.root && l.entries[w] {
      forall ledger, before, after, cutoff |
        HasListings(ledger, l) && SafeNames(before) && PruneResult(before, after, ledger, cutoff)
        ensures Honours(before, after, ledger)
      {
        ListedPruneHonoursHolds(before, after, ledger, cutoff);
      }
    } else {
      var w :| w in l.entries && IsWorkspaceKey(w) && !(l.root && l.entries[w]);
      var ledger, before := PinnedLedger(l, w), PinnedContent(w);
      assert HasListings(ledger, l);
      var after := UnlistedPrune(l, w);
      UnlistedPinIsDeleted(l, w, after);
      assert !Honours(before, after, ledger);
    }
  }

  // The prune of that content runs, and this is what it leaves.
  lemma UnlistedPrune(l: Listings, w: string) returns (after: Content)
    requires w in l.entries && IsWorkspaceKey(w) && !(l.root && l.entries[w])
    ensures SafeNames(PinnedContent(w)) && PruneResult(PinnedContent(w), after, PinnedLedger(l, w), 1)
  {
    var ledger, before := PinnedLedger(l, w), PinnedContent(w);
    after := Swept(before, 1, {});
    assert SafeNames(before) by {
      forall k | 0 <= k < 16 ensures w[k] != Slash {
      }
    }
    forall r ensures !InForce(Shown(ledger), r) {
    }
    assert IsHeldSet(Shown(ledger), {});
    hide SafeNames, PrunedTo, PrunedAtMostTo, Swept, PathsOf, IsHeldSet;
    SweepHonoursHolds(before, Shown(ledger), {}, 1);
  }
}
