/** The incremental memory-vector sidecar (core/src/embed-memory.ts). */
module EmbeddingIndex {
  import opened Prelude

  type Vector = seq<real>

  datatype Memory = Memory(id: int, title: string, content: string)

  // The injected embedder and content hash, both functions of the text alone.
  datatype Embedder = Embedder(embed: string -> Vector, hash: string -> string)

  ghost predicate Injective(hash: string -> string) {
    forall s, t {:trigger hash(s), hash(t)} :: hash(s) == hash(t) ==> s == t
  }

  function EmbedText(m: Memory): string {
    m.title + "\n" + m.content
  }

  // What lies on disk between builds.
  datatype Sidecar = Sidecar(vectors: map<int, Vector>, hashes: map<int, string>)

  // The vector is there and the text is the one it was made from.
  predicate CarriesForward(s: Sidecar, m: Memory, e: Embedder) {
    m.id in s.vectors && m.id in s.hashes && s.hashes[m.id] == e.hash(EmbedText(m))
  }

  function VectorFor(s: Sidecar, m: Memory, e: Embedder): Vector {
    if CarriesForward(s, m, e) then s.vectors[m.id] else e.embed(EmbedText(m))
  }

  ghost predicate DistinctIds(memories: seq<Memory>) {
    forall i, j :: 0 <= i < j < |memories| ==> memories[i].id != memories[j].id
  }

  function IdSet(memories: seq<Memory>): set<int> {
    set i | 0 <= i < |memories| :: memories[i].id
  }

  // The memory of an id.
  function Find(memories: seq<Memory>, id: int): (m: Memory)
    requires id in IdSet(memories)
    ensures m in memories && m.id == id
  {
    if memories[0].id == id then memories[0]
    else
      assert id in IdSet(memories[1..]) by {
        var i :| 0 <= i < |memories| && memories[i].id == id;
        assert memories[1..][i - 1].id == id;
      }
      Find(memories[1..], id)
  }

  lemma FindIsTheOne(memories: seq<Memory>, i: nat)
    requires DistinctIds(memories) && i < |memories|
    ensures memories[i].id in IdSet(memories) && Find(memories, memories[i].id) == memories[i]
  {
    var m := Find(memories, memories[i].id);
    var j :| 0 <= j < |memories| && memories[j] == m;
  }

  // What a completed build leaves behind.
  function AfterBuild(s: Sidecar, memories: seq<Memory>, e: Embedder): Sidecar {
    Sidecar(map id | id in IdSet(memories) :: VectorFor(s, Find(memories, id), e),
            map id | id in IdSet(memories) :: e.hash(EmbedText(Find(memories, id))))
  }

  // ---------- What the builds guarantee ----------

  // The sidecar of a memory set embedded from scratch.
  function FromScratch(memories: seq<Memory>, e: Embedder): map<int, Vector> {
    map id | id in IdSet(memories) :: e.embed(EmbedText(Find(memories, id)))
  }

  // A vector that would be carried forward is the one embedding would give.
  ghost predicate Truthful(s: Sidecar, e: Embedder) {
    forall m: Memory :: CarriesForward(s, m, e) ==> s.vectors[m.id] == e.embed(EmbedText(m))
  }

  // A memory is carried exactly when the previous build held it with the same text.
  lemma OnlyChangesAreEmbedded(s: Sidecar, memories: seq<Memory>, m: Memory, e: Embedder)
    requires Injective(e.hash) && DistinctIds(memories)
    ensures CarriesForward(AfterBuild(s, memories, e), m, e) <==>
      exists i :: 0 <= i < |memories| && memories[i].id == m.id && EmbedText(memories[i]) == EmbedText(m)
  {
    if m.id in IdSet(memories) {
      var j :| 0 <= j < |memories| && memories[j].id == m.id;
      FindIsTheOne(memories, j);
      assert AfterBuild(s, memories, e).hashes[m.id] == e.hash(EmbedText(memories[j]));
    }
  }

  lemma BuildIsFromScratch(s: Sidecar, memories: seq<Memory>, e: Embedder)
    requires Truthful(s, e)
    ensures AfterBuild(s, memories, e).vectors == FromScratch(memories, e)
  {
  }

  lemma BuildKeepsTruthful(s: Sidecar, memories: seq<Memory>, e: Embedder)
    requires Injective(e.hash) && DistinctIds(memories) && Truthful(s, e)
    ensures Truthful(AfterBuild(s, memories, e), e)
  {
    var after := AfterBuild(s, memories, e);
    forall m: Memory | CarriesForward(after, m, e)
      ensures after.vectors[m.id] == e.embed(EmbedText(m))
    {
      OnlyChangesAreEmbedded(s, memories, m, e);
      var i :| 0 <= i < |memories| && memories[i].id == m.id && EmbedText(memories[i]) == EmbedText(m);
      FindIsTheOne(memories, i);
      BuildIsFromScratch(s, memories, e);
      assert FromScratch(memories, e)[m.id] == e.embed(EmbedText(memories[i]));
    }
  }

  // A build may fail before it writes anything, when the embedder does.
  datatype Event = Build(memories: seq<Memory>) | FailedBuild

  function After(s: Sidecar, events: seq<Event>, e: Embedder): Sidecar {
    if events == [] then s
    else
      var before := After(s, events[..|events| - 1], e);
      match events[|events| - 1]
      case Build(memories) => AfterBuild(before, memories, e)
      case FailedBuild => before
  }

  // The set the last completed build was given.
  function LatestSet(events: seq<Event>): Option<seq<Memory>> {
    if events == [] then None
    else
      match events[|events| - 1]
      case Build(memories) => Some(memories)
      case FailedBuild => LatestSet(events[..|events| - 1])
  }

  const EmptySidecar := Sidecar(map[], map[])

  /** After any builds over any memory sets, the sidecar is what embedding the latest set from scratch gives:
      exactly its ids, none of the vectors stale. */
  lemma {:induction false} SidecarIsTheLatestSet(events: seq<Event>, e: Embedder)
    requires Injective(e.hash)
    requires forall k :: 0 <= k < |events| && events[k].Build? ==> DistinctIds(events[k].memories)
    ensures Truthful(After(EmptySidecar, events, e), e)
    ensures After(EmptySidecar, events, e).vectors
      == match LatestSet(events) case Some(memories) => FromScratch(memories, e) case None => map[]
  {
    if events != [] {
      var n := |events| - 1;
      SidecarIsTheLatestSet(events[..n], e);
      var before := After(EmptySidecar, events[..n], e);
      if events[n].Build? {
        BuildIsFromScratch(before, events[n].memories, e);
        BuildKeepsTruthful(before, events[n].memories, e);
      }
    }
  }

  // All of them are counted exactly when all of them are carried.
  lemma {:induction false} AllCarriedIff(s: Sidecar, memories: seq<Memory>, e: Embedder)
    ensures CarriedCount(s, memories, e) <= |memories|
    ensures CarriedCount(s, memories, e) == |memories| <==>
      forall i :: 0 <= i < |memories| ==> CarriesForward(s, memories[i], e)
  {
    hide CarriesForward;
    if memories != [] {
      AllCarriedIff(s, memories[..|memories| - 1], e);
    }
  }

  /** A rebuild of an unchanged set embeds nothing. */
  lemma RebuildCarriesEverything(s: Sidecar, memories: seq<Memory>, e: Embedder)
    requires Injective(e.hash) && DistinctIds(memories)
    ensures CarriedCount(AfterBuild(s, memories, e), memories, e) == |memories|
  {
    AllCarriedIff(AfterBuild(s, memories, e), memories, e);
    forall i | 0 <= i < |memories|
      ensures CarriesForward(AfterBuild(s, memories, e), memories[i], e)
    {
      OnlyChangesAreEmbedded(s, memories, memories[i], e);
    }
  }

  // ---------- The builder ----------

  // The first place an entry stands at.
  method IndexOf(memories: seq<Memory>, m: Memory) returns (i: nat)
    requires m in memories
    ensures i < |memories| && memories[i] == m && m !in memories[..i]
  {
    i := 0;
    while memories[i] != m
      invariant i < |memories| && m !in memories[..i] && m in memories[i..]
      decreases |memories| - i
    {
      i := i + 1;
    }
  }

  lemma OneMoreId(memories: seq<Memory>, k: nat)
    requires k < |memories|
    ensures IdSet(memories[..k + 1]) == IdSet(memories[..k]) + {memories[k].id}
  {
    var ids := IdSet(memories[..k + 1]);
    assert memories[..k + 1][k].id in ids;
    forall id | id in IdSet(memories[..k]) ensures id in ids {
      var i :| 0 <= i < k && memories[..k][i].id == id;
      assert memories[..k + 1][i].id == id;
    }
  }

  ghost predicate Carries(s: Sidecar, memories: seq<Memory>, i: nat, e: Embedder)
    requires i < |memories|
  {
    CarriesForward(s, memories[i], e)
  }

  // How many of the memories keep their vector.
  function CarriedCount(s: Sidecar, memories: seq<Memory>, e: Embedder): nat {
    if memories == [] then 0
    else
      CarriedCount(s, memories[..|memories| - 1], e) + if CarriesForward(s, memories[|memories| - 1], e) then 1 else 0
  }

  lemma OneMoreCarried(s: Sidecar, memories: seq<Memory>, k: nat, e: Embedder)
    requires k < |memories|
    ensures CarriedCount(s, memories[..k + 1], e)
      == CarriedCount(s, memories[..k], e) + if Carries(s, memories, k, e) then 1 else 0
  {
    assert memories[..k + 1][..k] == memories[..k];
  }

  // The first k memories sorted into vectors to carry and memories to embed.
  ghost predicate Divided(s: Sidecar, memories: seq<Memory>, k: nat, kept: map<int, Vector>, toEmbed: seq<Memory>,
                          e: Embedder)
    requires k <= |memories|
  {
    && (forall i :: 0 <= i < k ==> Placed(s, memories[i], kept, toEmbed, e))
    && (forall i :: k <= i < |memories| ==> memories[i].id !in kept)
    && |kept| == CarriedCount(s, memories[..k], e) && |toEmbed| + |kept| == k
    && (toEmbed == [] <==> forall i :: 0 <= i < k ==> Carries(s, memories, i, e))
  }

  ghost predicate Placed(s: Sidecar, m: Memory, kept: map<int, Vector>, toEmbed: seq<Memory>, e: Embedder) {
    if CarriesForward(s, m, e) then m.id in kept && kept[m.id] == VectorFor(s, m, e)
    else m.id !in kept && m in toEmbed
  }

  lemma OneMoreKey(kept: map<int, Vector>, id: int, v: Vector)
    requires id !in kept
    ensures |kept[id := v]| == |kept| + 1
  {
    assert kept[id := v].Keys == kept.Keys + {id};
    assert |kept.Keys + {id}| == |kept.Keys| + 1;
  }

  lemma PlacedStays(s: Sidecar, m: Memory, kept: map<int, Vector>, toEmbed: seq<Memory>, e: Embedder,
                    id: int, v: Vector, more: Memory)
    requires Placed(s, m, kept, toEmbed, e)
    ensures m.id != id ==> Placed(s, m, kept[id := v], toEmbed, e)
    ensures Placed(s, m, kept, toEmbed + [more], e)
  {
    hide CarriesForward, VectorFor;
  }

  lemma KeepOne(s: Sidecar, memories: seq<Memory>, k: nat, kept: map<int, Vector>, toEmbed: seq<Memory>, e: Embedder)
    requires DistinctIds(memories) && k < |memories| && Divided(s, memories, k, kept, toEmbed, e)
    requires Carries(s, memories, k, e)
    ensures Divided(s, memories, k + 1, kept[memories[k].id := VectorFor(s, memories[k], e)], toEmbed, e)
  {
    var id, v := memories[k].id, VectorFor(s, memories[k], e);
    var more := kept[id := v];
    OneMoreCarried(s, memories, k, e);
    assert Placed(s, memories[k], more, toEmbed, e);
    hide CarriesForward, VectorFor, Placed, CarriedCount;
    forall i | 0 <= i < k ensures Placed(s, memories[i], more, toEmbed, e) {
      PlacedStays(s, memories[i], kept, toEmbed, e, id, v, memories[k]);
    }
    assert id !in kept;
    OneMoreKey(kept, id, v);
  }

  lemma EmbedOne(s: Sidecar, memories: seq<Memory>, k: nat, kept: map<int, Vector>, toEmbed: seq<Memory>, e: Embedder)
    requires k < |memories| && Divided(s, memories, k, kept, toEmbed, e) && !Carries(s, memories, k, e)
    ensures Divided(s, memories, k + 1, kept, toEmbed + [memories[k]], e)
  {
    assert (toEmbed + [memories[k]])[|toEmbed|] == memories[k];
    assert Placed(s, memories[k], kept, toEmbed + [memories[k]], e);
    OneMoreCarried(s, memories, k, e);
    hide CarriesForward, VectorFor, Placed, CarriedCount;
    forall i | 0 <= i < k ensures Placed(s, memories[i], kept, toEmbed + [memories[k]], e) {
      PlacedStays(s, memories[i], kept, toEmbed, e, 0, [], memories[k]);
    }
  }

  method Divide(s: Sidecar, memories: seq<Memory>, e: Embedder)
    returns (kept: map<int, Vector>, toEmbed: seq<Memory>)
    requires DistinctIds(memories)
    ensures Divided(s, memories, |memories|, kept, toEmbed, e)
  {
    kept, toEmbed := map[], [];
    for k := 0 to |memories|
      invariant Divided(s, memories, k, kept, toEmbed, e)
    {
      var m := memories[k];
      assert Carries(s, memories, k, e) == CarriesForward(s, m, e);
      hide CarriesForward, Divided, Carries;
      if CarriesForward(s, m, e) {
        CarriedVector(s, m, e);
        KeepOne(s, memories, k, kept, toEmbed, e);
        kept := kept[m.id := s.vectors[m.id]];
      } else {
        EmbedOne(s, memories, k, kept, toEmbed, e);
        toEmbed := toEmbed + [m];
      }
    }
  }

  lemma CarriedVector(s: Sidecar, m: Memory, e: Embedder)
    requires CarriesForward(s, m, e)
    ensures m.id in s.vectors && VectorFor(s, m, e) == s.vectors[m.id]
  {
  }

  method VectorOf(s: Sidecar, m: Memory, kept: map<int, Vector>, toEmbed: seq<Memory>, made: seq<Vector>, e: Embedder)
    returns (vector: Vector)
    requires Placed(s, m, kept, toEmbed, e)
    requires |made| == |toEmbed| && forall i :: 0 <= i < |toEmbed| ==> made[i] == e.embed(EmbedText(toEmbed[i]))
    ensures vector == VectorFor(s, m, e)
  {
    hide EmbedText;
    if m.id in kept {
      vector := kept[m.id];
    } else {
      var i := IndexOf(toEmbed, m);
      vector := made[i];
    }
  }

  ghost predicate HasVector(s: Sidecar, m: Memory, out: map<int, Vector>, e: Embedder) {
    m.id in out && out[m.id] == VectorFor(s, m, e)
  }

  ghost predicate Assembled(s: Sidecar, memories: seq<Memory>, k: nat, out: map<int, Vector>, e: Embedder)
    requires k <= |memories|
  {
    && out.Keys == IdSet(memories[..k])
    && forall i :: 0 <= i < k ==> HasVector(s, memories[i], out, e)
  }

  lemma OneMoreVector(s: Sidecar, memories: seq<Memory>, k: nat, out: map<int, Vector>, e: Embedder)
    requires DistinctIds(memories) && k < |memories| && Assembled(s, memories, k, out, e)
    ensures Assembled(s, memories, k + 1, out[memories[k].id := VectorFor(s, memories[k], e)], e)
  {
    hide VectorFor, IdSet;
    var id := memories[k].id;
    OneMoreId(memories, k);
    assert out[id := VectorFor(s, memories[k], e)].Keys == out.Keys + {id};
  }

  method Assemble(s: Sidecar, memories: seq<Memory>, kept: map<int, Vector>, toEmbed: seq<Memory>,
                  made: seq<Vector>, e: Embedder) returns (out: map<int, Vector>)
    requires DistinctIds(memories)
    requires Divided(s, memories, |memories|, kept, toEmbed, e)
    requires |made| == |toEmbed| && forall i :: 0 <= i < |toEmbed| ==> made[i] == e.embed(EmbedText(toEmbed[i]))
    ensures out.Keys == IdSet(memories)
    ensures forall i :: 0 <= i < |memories| ==> HasVector(s, memories[i], out, e)
  {
    out := map[];
    for k := 0 to |memories|
      invariant Assembled(s, memories, k, out, e)
    {
      assert Placed(s, memories[k], kept, toEmbed, e);
      hide VectorFor, EmbedText, Assembled, Divided, Placed, DistinctIds;
      var vector := VectorOf(s, memories[k], kept, toEmbed, made, e);
      OneMoreVector(s, memories, k, out, e);
      out := out[memories[k].id := vector];
    }
    assert memories[..|memories|] == memories;
  }

  lemma AssembledIsTheBuild(s: Sidecar, memories: seq<Memory>, out: map<int, Vector>, e: Embedder)
    requires DistinctIds(memories) && out.Keys == IdSet(memories)
    requires forall i :: 0 <= i < |memories| ==> HasVector(s, memories[i], out, e)
    ensures out == AfterBuild(s, memories, e).vectors
  {
    hide VectorFor, EmbedText;
    var expected := AfterBuild(s, memories, e).vectors;
    forall id | id in IdSet(memories) ensures out[id] == expected[id] {
      var i :| 0 <= i < |memories| && memories[i].id == id;
      FindIsTheOne(memories, i);
      assert HasVector(s, memories[i], out, e);
    }
  }

  lemma HashedIsTheBuild(s: Sidecar, memories: seq<Memory>, next: map<int, string>, e: Embedder)
    requires DistinctIds(memories) && next.Keys == IdSet(memories)
    requires forall i :: 0 <= i < |memories| ==>
      memories[i].id in next && next[memories[i].id] == e.hash(EmbedText(memories[i]))
    ensures next == AfterBuild(s, memories, e).hashes
  {
    hide VectorFor, EmbedText;
    var expected := AfterBuild(s, memories, e).hashes;
    forall id | id in IdSet(memories) ensures next[id] == expected[id] {
      var i :| 0 <= i < |memories| && memories[i].id == id;
      FindIsTheOne(memories, i);
    }
  }

  class MemoryIndex {
    var disk: Sidecar

    /** One embedding call for the new and changed memories; the others keep their vectors, and the file is
        rebuilt from the current set. */
    method EmbedMemoryEntries(memories: seq<Memory>, e: Embedder) returns (embedded: nat, carried: nat)
      requires DistinctIds(memories)
      modifies this
      ensures disk.hashes == old(disk).hashes
      ensures disk.vectors == AfterBuild(old(disk), memories, e).vectors
      ensures carried == CarriedCount(old(disk), memories, e) && embedded + carried == |memories|
    {
      hide CarriesForward, VectorFor, EmbedText;
      var kept, toEmbed := Divide(disk, memories, e);
      assert memories[..|memories|] == memories;
      assert |toEmbed| + |kept| == |memories| && |kept| == CarriedCount(disk, memories, e);
      hide Divided, Carries, CarriedCount, AfterBuild, HasVector, IdSet;
      var made := seq(|toEmbed|, i requires 0 <= i < |toEmbed| => e.embed(EmbedText(toEmbed[i])));
      var out := Assemble(disk, memories, kept, toEmbed, made, e);
      AssembledIsTheBuild(disk, memories, out, e);
      disk := disk.(vectors := out);
      embedded, carried := |toEmbed|, |kept|;
    }

    method BuildMemoryIndex(memories: seq<Memory>, e: Embedder) returns (embedded: nat, carried: nat, total: nat)
      requires DistinctIds(memories)
      modifies this
      ensures disk == AfterBuild(old(disk), memories, e)
      ensures carried == CarriedCount(old(disk), memories, e) && embedded + carried == total == |memories|
    {
      embedded, carried := EmbedMemoryEntries(memories, e);
      var next := HashesOf(memories, e);
      HashedIsTheBuild(old(disk), memories, next, e);
      hide AfterBuild, CarriedCount, IdSet;
      disk := disk.(hashes := next);
      total := |memories|;
    }
  }

  method HashesOf(memories: seq<Memory>, e: Embedder) returns (next: map<int, string>)
    requires DistinctIds(memories)
    ensures next.Keys == IdSet(memories)
    ensures forall i :: 0 <= i < |memories| ==>
      memories[i].id in next && next[memories[i].id] == e.hash(EmbedText(memories[i]))
  {
    hide EmbedText;
    next := map[];
    for k := 0 to |memories|
      invariant next.Keys == IdSet(memories[..k])
      invariant forall i :: 0 <= i < k ==>
        memories[i].id in next && next[memories[i].id] == e.hash(EmbedText(memories[i]))
    {
      OneMoreId(memories, k);
      next := next[memories[k].id := e.hash(EmbedText(memories[k]))];
    }
    assert memories[..|memories|] == memories;
  }
}
