/** Showing each excerpt once a session (context-gate/src/shown-index.ts). */
module ShownExcerpts {
  import opened Prelude

  // The chunk set each text hash was first shown from; an empty id is no id.
  type Index = map<int, string>

  // What one call makes of its excerpts, given by their texts.
  datatype Dedup = Dedup(kept: seq<string>, suppressed: nat, priors: seq<string>)

  function PushDistinct(ids: seq<string>, id: string): seq<string> {
    if id in ids then ids else ids + [id]
  }

  predicate HasPrior(index: Index, h: int) {
    h in index && index[h] != ""
  }

  predicate SeenIn(kept: seq<string>, h: int, hash: string -> int) {
    exists i :: 0 <= i < |kept| && hash(kept[i]) == h
  }

  function DedupOf(index: Index, current: string, texts: seq<string>, hash: string -> int): Dedup {
    if texts == [] then Dedup([], 0, [])
    else
      var d := DedupOf(index, current, texts[..|texts| - 1], hash);
      var text := texts[|texts| - 1];
      var h := hash(text);
      if HasPrior(index, h) then d.(suppressed := d.suppressed + 1, priors := PushDistinct(d.priors, index[h]))
      else if SeenIn(d.kept, h, hash) then d.(suppressed := d.suppressed + 1, priors := PushDistinct(d.priors, current))
      else d.(kept := d.kept + [text])
  }

  // The rows a call adds: the first id a hash is recorded with stays.
  function Recorded(index: Index, current: string, kept: seq<string>, hash: string -> int): Index {
    if kept == [] then index
    else
      var earlier := Recorded(index, current, kept[..|kept| - 1], hash);
      var h := hash(kept[|kept| - 1]);
      if h in earlier then earlier else earlier[h := current]
  }

  // ---------- One call ----------

  method DedupShownExcerpts(index: Index, current: string, texts: seq<string>, hash: string -> int) returns (d: Dedup)
    ensures d == DedupOf(index, current, texts, hash)
  {
    var seen: set<int> := {};
    d := Dedup([], 0, []);
    for k := 0 to |texts|
      invariant d == DedupOf(index, current, texts[..k], hash)
      invariant forall h :: h in seen <==> SeenIn(d.kept, h, hash)
    {
      assert texts[..k + 1][..k] == texts[..k];
      var h := hash(texts[k]);
      if HasPrior(index, h) {
        d := d.(suppressed := d.suppressed + 1, priors := PushDistinct(d.priors, index[h]));
        continue;
      }
      if h in seen {
        d := d.(suppressed := d.suppressed + 1, priors := PushDistinct(d.priors, current));
        continue;
      }
      SeenGrows(d.kept, texts[k], hash);
      seen := seen + {h};
      d := d.(kept := d.kept + [texts[k]]);
    }
    assert texts[..|texts|] == texts;
  }

  lemma SeenGrows(kept: seq<string>, text: string, hash: string -> int)
    ensures forall h :: SeenIn(kept + [text], h, hash) <==> SeenIn(kept, h, hash) || h == hash(text)
  {
    forall h
      ensures SeenIn(kept + [text], h, hash) <==> SeenIn(kept, h, hash) || h == hash(text)
    {
      var more := kept + [text];
      if i :| 0 <= i < |kept| && hash(kept[i]) == h {
        assert hash(more[i]) == h;
      }
      assert more[|kept|] == text;
    }
  }

  /** The index file of a session. A read may find it missing or corrupt, and a write may fail. */
  class ShownIndex {
    var index: Index

    method RecordShown(current: string, kept: seq<string>, hash: string -> int, readable: bool, landed: bool)
      modifies this
      ensures index == if kept != [] && landed
                       then Recorded(if readable then old(index) else map[], current, kept, hash) else old(index)
    {
      if kept == [] {
        return;
      }
      var rows: Index := if readable then index else map[];
      for k := 0 to |kept|
        modifies {}
        invariant rows == Recorded(if readable then index else map[], current, kept[..k], hash)
      {
        assert kept[..k + 1][..k] == kept[..k];
        if hash(kept[k]) !in rows {
          rows := rows[hash(kept[k]) := current];
        }
      }
      assert kept[..|kept|] == kept;
      if landed {
        index := rows;
      }
    }

    method ApplyShownDedup(c: Call, hash: string -> int) returns (d: Dedup)
      modifies this
      ensures d == DedupIn(old(index), c, hash) && index == IndexAfter(old(index), c, hash)
    {
      d := DedupShownExcerpts(if c.readable then index else map[], c.current, c.texts, hash);
      RecordShown(c.current, d.kept, hash, c.stillReadable, c.landed);
    }
  }

  // ---------- A whole session ----------

  datatype Call = Call(current: string, texts: seq<string>, readable: bool, stillReadable: bool, landed: bool)

  function DedupIn(index: Index, c: Call, hash: string -> int): Dedup {
    DedupOf(if c.readable then index else map[], c.current, c.texts, hash)
  }

  function IndexAfter(index: Index, c: Call, hash: string -> int): Index {
    var kept := DedupIn(index, c, hash).kept;
    if kept != [] && c.landed
    then Recorded(if c.stillReadable then index else map[], c.current, kept, hash)
    else index
  }

  // The file, and every text shown with the chunk set it was shown from.
  datatype Session = Session(index: Index, shown: seq<(string, string)>)

  function ShownBy(kept: seq<string>, current: string): seq<(string, string)> {
    seq(|kept|, i requires 0 <= i < |kept| => (kept[i], current))
  }

  function After(calls: seq<Call>, hash: string -> int): Session {
    if calls == [] then Session(map[], [])
    else
      var s, c := After(calls[..|calls| - 1], hash), calls[|calls| - 1];
      Session(IndexAfter(s.index, c, hash), s.shown + ShownBy(DedupIn(s.index, c, hash).kept, c.current))
  }

  ghost predicate Injective(hash: string -> int) {
    forall s, t {:trigger hash(s), hash(t)} :: hash(s) == hash(t) ==> s == t
  }

  // A row of the index remembers a text shown from the chunk set it names.
  ghost predicate Honest(index: Index, shown: seq<(string, string)>, hash: string -> int) {
    forall h :: h in index ==> exists k :: 0 <= k < |shown| && hash(shown[k].0) == h && shown[k].1 == index[h]
  }

  lemma {:induction false} RecordedIsHonest(index: Index, current: string, kept: seq<string>, shown: seq<(string, string)>,
                                            hash: string -> int)
    requires Honest(index, shown, hash)
    ensures Honest(Recorded(index, current, kept, hash), shown + ShownBy(kept, current), hash)
  {
    var all := shown + ShownBy(kept, current);
    if kept == [] {
      assert all == shown;
    } else {
      var n := |kept| - 1;
      RecordedIsHonest(index, current, kept[..n], shown, hash);
      var earlier := shown + ShownBy(kept[..n], current);
      var rows := Recorded(index, current, kept, hash);
      forall h | h in rows
        ensures exists k :: 0 <= k < |all| && hash(all[k].0) == h && all[k].1 == rows[h]
      {
        if h in Recorded(index, current, kept[..n], hash) {
          var k :| 0 <= k < |earlier| && hash(earlier[k].0) == h && earlier[k].1 == rows[h];
          assert all[k] == earlier[k];
        } else {
          assert all[|shown| + n] == (kept[n], current);
        }
      }
    }
  }

  lemma HonestStays(index: Index, shown: seq<(string, string)>, more: seq<(string, string)>, hash: string -> int)
    requires Honest(index, shown, hash)
    ensures Honest(index, shown + more, hash)
  {
    forall h | h in index
      ensures exists k :: 0 <= k < |shown + more| && hash((shown + more)[k].0) == h && (shown + more)[k].1 == index[h]
    {
      var k :| 0 <= k < |shown| && hash(shown[k].0) == h && shown[k].1 == index[h];
      assert (shown + more)[k] == shown[k];
    }
  }

  lemma {:induction false} IndexStaysHonest(calls: seq<Call>, hash: string -> int)
    ensures Honest(After(calls, hash).index, After(calls, hash).shown, hash)
  {
    if calls != [] {
      var n := |calls| - 1;
      IndexStaysHonest(calls[..n], hash);
      var s, c := After(calls[..n], hash), calls[n];
      var kept := DedupIn(s.index, c, hash).kept;
      HonestStays(s.index, s.shown, ShownBy(kept, c.current), hash);
      RecordedIsHonest(if c.stillReadable then s.index else map[], c.current, kept, s.shown, hash);
    }
  }

  // The text was shown from one of the chunk sets named.
  ghost predicate ShownFrom(shown: seq<(string, string)>, text: string, ids: seq<string>) {
    exists k :: 0 <= k < |shown| && shown[k].0 == text && shown[k].1 in ids
  }

  predicate InKept(kept: seq<string>, text: string) {
    exists i :: 0 <= i < |kept| && kept[i] == text
  }

  lemma DedupMonotone(index: Index, current: string, texts: seq<string>, hash: string -> int)
    requires texts != []
    ensures var d, e := DedupOf(index, current, texts[..|texts| - 1], hash), DedupOf(index, current, texts, hash);
      && (forall t :: InKept(d.kept, t) ==> InKept(e.kept, t))
      && (forall id :: id in d.priors ==> id in e.priors)
  {
    var d, e := DedupOf(index, current, texts[..|texts| - 1], hash), DedupOf(index, current, texts, hash);
    assert forall i :: 0 <= i < |d.kept| ==> e.kept[i] == d.kept[i];
  }

  lemma LastKeptOrPrior(index: Index, current: string, texts: seq<string>, shown: seq<(string, string)>,
                        hash: string -> int)
    requires Injective(hash) && Honest(index, shown, hash) && texts != []
    ensures var d, text := DedupOf(index, current, texts, hash), texts[|texts| - 1];
      InKept(d.kept, text) || ShownFrom(shown, text, d.priors)
  {
    var text := texts[|texts| - 1];
    var d := DedupOf(index, current, texts[..|texts| - 1], hash);
    var e := DedupOf(index, current, texts, hash);
    var h := hash(text);
    if HasPrior(index, h) {
      var j :| 0 <= j < |shown| && hash(shown[j].0) == h && shown[j].1 == index[h];
      assert shown[j].0 == text && shown[j].1 in e.priors;
    } else if SeenIn(d.kept, h, hash) {
      var i :| 0 <= i < |d.kept| && hash(d.kept[i]) == h;
      assert e.kept[i] == text;
    } else {
      assert e.kept[|d.kept|] == text;
    }
  }

  lemma {:induction false} KeptOrPrior(index: Index, current: string, texts: seq<string>, k: nat,
                                       shown: seq<(string, string)>, hash: string -> int)
    requires Injective(hash) && Honest(index, shown, hash) && k < |texts|
    ensures var d := DedupOf(index, current, texts, hash);
      InKept(d.kept, texts[k]) || ShownFrom(shown, texts[k], d.priors)
  {
    var n := |texts| - 1;
    hide Honest, DedupOf, InKept;
    if k < n {
      assert texts[..n][k] == texts[k];
      KeptOrPrior(index, current, texts[..n], k, shown, hash);
      DedupMonotone(index, current, texts, hash);
    } else {
      LastKeptOrPrior(index, current, texts, shown, hash);
    }
  }

  /** Whatever reads and writes of the index fail: an excerpt a call does not show was shown before in the
      session, from a chunk set the call names, or is shown by the call itself. Nothing is lost in the count. */
  lemma NothingIsFalselySuppressed(calls: seq<Call>, c: Call, k: nat, hash: string -> int)
    requires Injective(hash) && k < |c.texts|
    ensures var d := DedupIn(After(calls, hash).index, c, hash);
      && |d.kept| + d.suppressed == |c.texts|
      && (InKept(d.kept, c.texts[k]) || ShownFrom(After(calls, hash).shown, c.texts[k], d.priors))
  {
    var s := After(calls, hash);
    IndexStaysHonest(calls, hash);
    KeptOrPrior(if c.readable then s.index else map[], c.current, c.texts, k, s.shown, hash);
    CountsAdd(if c.readable then s.index else map[], c.current, c.texts, hash);
  }

  lemma {:induction false} CountsAdd(index: Index, current: string, texts: seq<string>, hash: string -> int)
    ensures var d := DedupOf(index, current, texts, hash); |d.kept| + d.suppressed == |texts|
  {
    if texts != [] {
      CountsAdd(index, current, texts[..|texts| - 1], hash);
    }
  }

  // ---------- A session without faults ----------

  ghost predicate Faultless(c: Call) {
    c.readable && c.stillReadable && c.landed && c.current != ""
  }

  ghost predicate Remembers(index: Index, shown: seq<(string, string)>, hash: string -> int) {
    forall k :: 0 <= k < |shown| ==> HasPrior(index, hash(shown[k].0))
  }

  lemma {:induction false} RecordedRemembers(index: Index, current: string, kept: seq<string>, hash: string -> int)
    requires current != "" && AllNew(index, kept, hash)
    requires forall h :: h in index ==> index[h] != ""
    ensures var rows := Recorded(index, current, kept, hash);
      && (forall h :: h in rows ==> rows[h] != "")
      && (forall h :: h in index ==> h in rows)
      && (forall i :: 0 <= i < |kept| ==> HasPrior(rows, hash(kept[i])))
  {
    if kept != [] {
      var n := |kept| - 1;
      assert AllNew(index, kept[..n], hash) by {
        assert forall i :: 0 <= i < n ==> kept[..n][i] == kept[i];
      }
      RecordedRemembers(index, current, kept[..n], hash);
      assert forall i :: 0 <= i < n ==> kept[..n][i] == kept[i];
    }
  }

  ghost predicate AllNew(index: Index, kept: seq<string>, hash: string -> int) {
    forall i :: 0 <= i < |kept| ==> !HasPrior(index, hash(kept[i]))
  }

  ghost predicate AllDistinct(kept: seq<string>) {
    forall i, j :: 0 <= i < j < |kept| ==> kept[i] != kept[j]
  }

  lemma OneMoreNew(index: Index, kept: seq<string>, text: string, hash: string -> int)
    requires AllNew(index, kept, hash) && AllDistinct(kept)
    requires !HasPrior(index, hash(text)) && !SeenIn(kept, hash(text), hash)
    ensures AllNew(index, kept + [text], hash) && AllDistinct(kept + [text])
  {
    var more := kept + [text];
    hide HasPrior;
    forall i | 0 <= i < |more| ensures !HasPrior(index, hash(more[i])) {
      assert i < |kept| ==> more[i] == kept[i];
    }
    forall i | 0 <= i < |kept| ensures kept[i] != text {
      assert hash(kept[i]) != hash(text);
    }
  }

  lemma {:induction false} KeptOnce(index: Index, current: string, texts: seq<string>, hash: string -> int)
    ensures var kept := DedupOf(index, current, texts, hash).kept;
      AllNew(index, kept, hash) && AllDistinct(kept)
  {
    if texts != [] {
      var d, text := DedupOf(index, current, texts[..|texts| - 1], hash), texts[|texts| - 1];
      KeptOnce(index, current, texts[..|texts| - 1], hash);
      hide AllNew, AllDistinct, SeenIn, HasPrior;
      if !HasPrior(index, hash(text)) && !SeenIn(d.kept, hash(text), hash) {
        OneMoreNew(index, d.kept, text, hash);
      }
    }
  }

  ghost predicate NoneTwice(shown: seq<(string, string)>) {
    forall i, j :: 0 <= i < j < |shown| ==> shown[i].0 != shown[j].0
  }

  lemma FaultlessCall(s: Session, c: Call, hash: string -> int)
    requires Faultless(c) && Remembers(s.index, s.shown, hash) && NoneTwice(s.shown)
    requires forall h :: h in s.index ==> s.index[h] != ""
    ensures var kept, rows := DedupIn(s.index, c, hash).kept, IndexAfter(s.index, c, hash);
      && Remembers(rows, s.shown + ShownBy(kept, c.current), hash) && NoneTwice(s.shown + ShownBy(kept, c.current))
      && (forall h :: h in rows ==> rows[h] != "")
  {
    var kept, rows := DedupIn(s.index, c, hash).kept, IndexAfter(s.index, c, hash);
    KeptOnce(s.index, c.current, c.texts, hash);
    RecordedRemembers(s.index, c.current, kept, hash);
    assert rows == Recorded(s.index, c.current, kept, hash);
    hide DedupIn, DedupOf, IndexAfter, Recorded;
    RecordedKeepsPriors(s.index, rows, s.shown, hash);
  }

  lemma RecordedKeepsPriors(index: Index, rows: Index, shown: seq<(string, string)>, hash: string -> int)
    requires Remembers(index, shown, hash) && forall h :: h in index ==> h in rows
    requires forall h :: h in rows ==> rows[h] != ""
    ensures Remembers(rows, shown, hash)
  {
  }

  /** When every read and write of the index succeeds, no text is shown twice in a session. */
  lemma {:induction false} EachTextIsShownOnce(calls: seq<Call>, hash: string -> int)
    requires forall k :: 0 <= k < |calls| ==> Faultless(calls[k])
    ensures var s := After(calls, hash);
      && Remembers(s.index, s.shown, hash) && (forall h :: h in s.index ==> s.index[h] != "")
      && NoneTwice(s.shown)
  {
    if calls != [] {
      var n := |calls| - 1;
      EachTextIsShownOnce(calls[..n], hash);
      FaultlessCall(After(calls[..n], hash), calls[n], hash);
    }
  }
}
