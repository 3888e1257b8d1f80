/** How many expansions a saving can pay for (bench-replay/src/recovery-breakeven.ts). */
module RecoveryBreakeven {
  import opened Prelude

  // ---------- What the arms are measured as ----------

  // A request as the calculation sees it: its size, and the size of each tool result in order.
  datatype Measured = Measured(bodyBytes: nat, results: seq<(string, nat)>)

  datatype Expandable = Expandable(
    toolUseId: string,
    recoverableBytes: int,
    rawBytes: nat,
    firstRequest: nat,
    ridesInRequests: nat,
    costBytes: nat)

  datatype BreakevenError = ArmsDiffer(baseline: nat, megasaver: nat)

  // breakevenRate is breakevenCount / |expandable|, or not a number when nothing is expandable.
  datatype Breakeven = Breakeven(savedBytes: int, expandable: seq<Expandable>, breakevenCount: nat)

  // ---------- Choices and their cost ----------

  // A choice marks the outputs that get expanded.
  function CostOf(items: seq<Expandable>, choice: seq<bool>): nat
    requires |choice| == |items|
  {
    if items == [] then 0
    else
      CostOf(items[..|items| - 1], choice[..|items| - 1]) + if choice[|items| - 1] then items[|items| - 1].costBytes else 0
  }

  function Chosen(choice: seq<bool>): nat {
    if choice == [] then 0 else Chosen(choice[..|choice| - 1]) + if choice[|choice| - 1] then 1 else 0
  }

  // The cost of the first n items.
  function FirstCosts(items: seq<Expandable>, n: nat): nat
    requires n <= |items|
  {
    if n == 0 then 0 else FirstCosts(items, n - 1) + items[n - 1].costBytes
  }

  ghost predicate Descending(items: seq<Expandable>) {
    forall i, j :: 0 <= i < j < |items| ==> items[i].costBytes >= items[j].costBytes
  }

  lemma {:induction false} ChosenIsBounded(choice: seq<bool>)
    ensures Chosen(choice) <= |choice|
  {
    if choice != [] {
      ChosenIsBounded(choice[..|choice| - 1]);
    }
  }

  lemma {:induction false} FirstCostsOfPrefix(items: seq<Expandable>, m: nat, n: nat)
    requires n <= m <= |items|
    ensures FirstCosts(items[..m], n) == FirstCosts(items, n)
  {
    if n > 0 {
      FirstCostsOfPrefix(items, m, n - 1);
    }
  }

  lemma {:induction false} FirstCostsGrow(items: seq<Expandable>, m: nat, n: nat)
    requires m <= n <= |items|
    ensures FirstCosts(items, m) <= FirstCosts(items, n)
  {
    if m < n {
      FirstCostsGrow(items, m, n - 1);
    }
  }

  /** Exchange: of a descending list no choice costs more than as many items from the front. */
  lemma {:induction false} FrontIsTheDearestChoice(items: seq<Expandable>, choice: seq<bool>)
    requires |choice| == |items| && Descending(items)
    ensures Chosen(choice) <= |items|
    ensures CostOf(items, choice) <= FirstCosts(items, Chosen(choice))
  {
    ChosenIsBounded(choice);
    if items != [] {
      var n := |items| - 1;
      var c := Chosen(choice[..n]);
      ChosenIsBounded(choice[..n]);
      FrontIsTheDearestChoice(items[..n], choice[..n]);
      FirstCostsOfPrefix(items, n, c);
      if choice[n] {
        assert items[c].costBytes >= items[n].costBytes;
        assert FirstCosts(items, c + 1) == FirstCosts(items, c) + items[c].costBytes;
      }
    }
  }

  function FrontChoice(length: nat, n: nat): seq<bool> {
    seq(length, i => i < n)
  }

  lemma {:induction false} CostOfFront(items: seq<Expandable>, n: nat)
    requires n <= |items|
    ensures CostOf(items, FrontChoice(|items|, n)) == FirstCosts(items, n)
    ensures Chosen(FrontChoice(|items|, n)) == n
  {
    if items != [] {
      var m := |items| - 1;
      assert FrontChoice(m + 1, n)[..m] == FrontChoice(m, n);
      if n <= m {
        CostOfFront(items[..m], n);
        FirstCostsOfPrefix(items, m, n);
      } else {
        CostOfFront(items[..m], m);
        assert FrontChoice(m, n) == FrontChoice(m, m);
        FirstCostsOfPrefix(items, m, m);
      }
    }
  }

  // ---------- The greedy count ----------

  // The longest front the saving pays for.
  ghost predicate IsBreakeven(items: seq<Expandable>, saved: int, count: nat) {
    && count <= |items|
    && (forall n :: 0 < n <= count ==> FirstCosts(items, n) <= saved)
    && (count < |items| ==> FirstCosts(items, count + 1) > saved)
  }

  // What is reported: nothing, unless there was a saving.
  ghost predicate IsReported(items: seq<Expandable>, saved: int, count: nat) {
    if saved <= 0 then count == 0 else IsBreakeven(items, saved, count)
  }

  method CountAffordable(items: seq<Expandable>, saved: int) returns (count: nat)
    ensures IsBreakeven(items, saved, count)
  {
    var spent := 0;
    count := 0;
    while count < |items|
      invariant count <= |items| && spent == FirstCosts(items, count)
      invariant forall n :: 0 < n <= count ==> FirstCosts(items, n) <= saved
    {
      if spent + items[count].costBytes > saved {
        break;
      }
      spent := spent + items[count].costBytes;
      count := count + 1;
    }
  }

  // Every choice of at most n outputs is paid for.
  ghost predicate PaysForAny(items: seq<Expandable>, saved: int, n: nat) {
    forall choice: seq<bool> :: |choice| == |items| && Chosen(choice) <= n ==> CostOf(items, choice) <= saved
  }

  lemma FrontWithinSavingPaysForAny(items: seq<Expandable>, saved: int, n: nat)
    requires Descending(items) && n <= |items| && FirstCosts(items, n) <= saved
    ensures PaysForAny(items, saved, n)
  {
    forall choice: seq<bool> | |choice| == |items| && Chosen(choice) <= n
      ensures CostOf(items, choice) <= saved
    {
      FrontIsTheDearestChoice(items, choice);
      FirstCostsGrow(items, Chosen(choice), n);
    }
  }

  lemma FrontBeyondSavingIsNotPaidFor(items: seq<Expandable>, saved: int, n: nat)
    requires n <= |items| && FirstCosts(items, n) > saved
    ensures !PaysForAny(items, saved, n)
  {
    CostOfFront(items, n);
    var choice := FrontChoice(|items|, n);
    assert |choice| == |items| && Chosen(choice) <= n && CostOf(items, choice) > saved;
  }

  /** The reported count is safe exactly when the saving is not negative: then any choice of at most
      that many outputs is paid for.  And it is tight: with a positive saving and an output left over, not
      every choice of one more is paid for. */
  lemma BreakevenIsSafeAndTight(items: seq<Expandable>, saved: int, count: nat)
    requires Descending(items) && IsReported(items, saved, count)
    ensures PaysForAny(items, saved, count) <==> saved >= 0
    ensures saved > 0 && count < |items| ==> !PaysForAny(items, saved, count + 1)
  {
    hide PaysForAny;
    if saved >= 0 {
      FrontWithinSavingPaysForAny(items, saved, count);
    } else {
      FrontBeyondSavingIsNotPaidFor(items, saved, count);
    }
    if saved > 0 && count < |items| {
      FrontBeyondSavingIsNotPaidFor(items, saved, count + 1);
    }
  }

  // ---------- The expandable outputs ----------

  // The size a request gives a tool result; the last one of an id wins.
  function SizeOf(results: seq<(string, nat)>, id: string): Option<nat> {
    if results == [] then None
    else if results[|results| - 1].0 == id then Some(results[|results| - 1].1)
    else SizeOf(results[..|results| - 1], id)
  }

  // The first of the requests that shows the tool result.
  function FirstWith(requests: seq<Measured>, id: string): Option<nat> {
    if requests == [] then None
    else
      var earlier := FirstWith(requests[..|requests| - 1], id);
      if earlier.Some? then earlier
      else if SizeOf(requests[|requests| - 1].results, id).Some? then Some(|requests| - 1) else None
  }

  // What expanding a tool result gives back and costs, judged where it first appears.
  function OutputAt(baseline: seq<Measured>, megasaver: seq<Measured>, id: string, i: nat): Option<Expandable>
    requires i < |baseline| == |megasaver|
  {
    var raw, compressed := SizeOf(baseline[i].results, id), SizeOf(megasaver[i].results, id);
    if raw == None || compressed == None || raw.value <= compressed.value then None
    else
      var rides := |baseline| - (i + 1);
      Some(Expandable(id, raw.value - compressed.value, raw.value, i + 1, rides, raw.value * rides))
  }

  function OutputOf(baseline: seq<Measured>, megasaver: seq<Measured>, n: nat, id: string): Option<Expandable>
    requires n <= |baseline| == |megasaver|
  {
    var first := FirstWith(baseline[..n], id);
    if first.Some? && first.value < n then OutputAt(baseline, megasaver, id, first.value) else None
  }

  // The list holds exactly the expandable outputs first seen in the first n requests.
  ghost predicate Collected(items: seq<Expandable>, baseline: seq<Measured>, megasaver: seq<Measured>, n: nat)
    requires n <= |baseline| == |megasaver|
  {
    && (forall i, j :: 0 <= i < j < |items| ==> items[i].toolUseId != items[j].toolUseId)
    && (forall e :: e in items <==> OutputOf(baseline, megasaver, n, e.toolUseId) == Some(e))
  }

  lemma {:induction false} FirstWithIsBounded(requests: seq<Measured>, id: string)
    ensures FirstWith(requests, id).Some? ==>
      FirstWith(requests, id).value < |requests| && SizeOf(requests[FirstWith(requests, id).value].results, id).Some?
  {
    if requests != [] {
      FirstWithIsBounded(requests[..|requests| - 1], id);
    }
  }

  // The keys of the source's map in insertion order, and the map.
  method ToolResultBytes(results: seq<(string, nat)>) returns (order: seq<string>, sizes: map<string, nat>)
    ensures forall id: string :: SizeOf(results, id) == if id in sizes then Some(sizes[id]) else None
    ensures forall id: string :: id in order <==> id in sizes
    ensures forall i, j :: 0 <= i < j < |order| ==> order[i] != order[j]
  {
    order, sizes := [], map[];
    for r := 0 to |results|
      invariant forall id: string :: SizeOf(results[..r], id) == if id in sizes then Some(sizes[id]) else None
      invariant forall id: string :: id in order <==> id in sizes
      invariant forall i, j :: 0 <= i < j < |order| ==> order[i] != order[j]
    {
      assert results[..r + 1][..r] == results[..r];
      var (id, bytes) := results[r];
      if id !in sizes {
        order := order + [id];
      }
      sizes := sizes[id := bytes];
    }
    assert results[..|results|] == results;
  }

  // seen is the set of ids met in the first n requests
  ghost predicate SeenIn(seen: set<string>, baseline: seq<Measured>, n: nat)
    requires n <= |baseline|
  {
    forall id: string :: id in seen <==> FirstWith(baseline[..n], id).Some?
  }

  // What request i adds: its ids not seen before that are expandable there.
  ghost predicate Adds(items: seq<Expandable>, before: seq<Expandable>, baseline: seq<Measured>, megasaver: seq<Measured>,
                       i: nat, added: set<string>)
    requires i < |baseline| == |megasaver|
  {
    && (forall a, b :: 0 <= a < b < |items| ==> items[a].toolUseId != items[b].toolUseId)
    && (forall e :: e in items <==>
          e in before || (e.toolUseId in added && OutputAt(baseline, megasaver, e.toolUseId, i) == Some(e)))
  }

  lemma AddOne(items: seq<Expandable>, before: seq<Expandable>, baseline: seq<Measured>, megasaver: seq<Measured>,
               i: nat, added: set<string>, id: string)
    requires i < |baseline| == |megasaver| && Adds(items, before, baseline, megasaver, i, added)
    requires id !in added && forall e :: e in before ==> e.toolUseId != id
    ensures var o := OutputAt(baseline, megasaver, id, i);
      && (o == None ==> Adds(items, before, baseline, megasaver, i, added + {id}))
      && (o.Some? ==> Adds(items + [o.value], before, baseline, megasaver, i, added + {id}))
  {
    OutputIsOfItsId(baseline, megasaver, id, i);
    hide OutputAt;
    assert forall e :: e in items ==> e.toolUseId != id;
  }

  lemma OutputIsOfItsId(baseline: seq<Measured>, megasaver: seq<Measured>, id: string, i: nat)
    requires i < |baseline| == |megasaver|
    ensures OutputAt(baseline, megasaver, id, i).Some? ==> OutputAt(baseline, megasaver, id, i).value.toolUseId == id
    ensures OutputAt(baseline, megasaver, id, i).Some? ==> SizeOf(baseline[i].results, id).Some?
  {
  }

  method CollectRequest(baseline: seq<Measured>, megasaver: seq<Measured>, i: nat, before: seq<Expandable>,
                        seenBefore: set<string>)
    returns (items: seq<Expandable>, seen: set<string>)
    requires i < |baseline| == |megasaver|
    requires forall a, b :: 0 <= a < b < |before| ==> before[a].toolUseId != before[b].toolUseId
    requires forall e :: e in before ==> e.toolUseId in seenBefore
    ensures seenBefore <= seen
    ensures forall id: string :: id in seen <==> id in seenBefore || SizeOf(baseline[i].results, id).Some?
    ensures Adds(items, before, baseline, megasaver, i, seen - seenBefore)
  {
    hide OutputAt, Adds;
    items, seen := before, seenBefore;
    var order, rawSizes := ToolResultBytes(baseline[i].results);
    var _, compressedSizes := ToolResultBytes(megasaver[i].results);
    NothingAdded(before, baseline, megasaver, i);
    assert seen - seenBefore == {};
    for k := 0 to |order|
      invariant forall id: string :: id in seen <==> id in seenBefore || id in order[..k]
      invariant Adds(items, before, baseline, megasaver, i, seen - seenBefore)
    {
      assert order[..k + 1] == order[..k] + [order[k]];
      var id := order[k];
      if id in seen {
        continue;
      }
      AddOne(items, before, baseline, megasaver, i, seen - seenBefore, id);
      OutputIs(baseline, megasaver, id, i);
      assert (seen + {id}) - seenBefore == (seen - seenBefore) + {id};
      seen := seen + {id};
      if id !in compressedSizes {
        continue;
      }
      var rawBytes, compressed := rawSizes[id], compressedSizes[id];
      var recoverableBytes := rawBytes - compressed;
      if recoverableBytes <= 0 {
        continue;
      }
      var rides := |baseline| - (i + 1);
      items := items + [Expandable(id, recoverableBytes, rawBytes, i + 1, rides, rawBytes * rides)];
    }
    assert order[..|order|] == order;
  }

  lemma NothingAdded(before: seq<Expandable>, baseline: seq<Measured>, megasaver: seq<Measured>, i: nat)
    requires i < |baseline| == |megasaver|
    requires forall a, b :: 0 <= a < b < |before| ==> before[a].toolUseId != before[b].toolUseId
    ensures Adds(before, before, baseline, megasaver, i, {})
  {
  }

  lemma OutputIs(baseline: seq<Measured>, megasaver: seq<Measured>, id: string, i: nat)
    requires i < |baseline| == |megasaver|
    ensures var raw, compressed := SizeOf(baseline[i].results, id), SizeOf(megasaver[i].results, id);
      OutputAt(baseline, megasaver, id, i)
      == if raw == None || compressed == None || raw.value <= compressed.value then None
         else Some(Expandable(id, raw.value - compressed.value, raw.value, i + 1, |baseline| - (i + 1),
                              raw.value * (|baseline| - (i + 1))))
  {
  }

  // Collecting one more request.
  lemma CollectedNext(items: seq<Expandable>, before: seq<Expandable>, baseline: seq<Measured>, megasaver: seq<Measured>,
                      i: nat, seen: set<string>, seenBefore: set<string>)
    requires i < |baseline| == |megasaver|
    requires Collected(before, baseline, megasaver, i) && SeenIn(seenBefore, baseline, i)
    requires forall id: string :: id in seen <==> id in seenBefore || SizeOf(baseline[i].results, id).Some?
    requires Adds(items, before, baseline, megasaver, i, seen - seenBefore)
    ensures Collected(items, baseline, megasaver, i + 1) && SeenIn(seen, baseline, i + 1)
  {
    hide OutputAt;
    assert baseline[..i + 1][..i] == baseline[..i];
    forall e
      ensures e in items <==> OutputOf(baseline, megasaver, i + 1, e.toolUseId) == Some(e)
    {
      FirstWithIsBounded(baseline[..i], e.toolUseId);
      OutputIsOfItsId(baseline, megasaver, e.toolUseId, i);
    }
  }

  method Collect(baseline: seq<Measured>, megasaver: seq<Measured>) returns (items: seq<Expandable>)
    requires |baseline| == |megasaver|
    ensures Collected(items, baseline, megasaver, |baseline|)
  {
    hide OutputAt, Adds;
    items := [];
    var seen: set<string> := {};
    for i := 0 to |baseline|
      invariant Collected(items, baseline, megasaver, i)
      invariant SeenIn(seen, baseline, i)
    {
      forall e | e in items
        ensures e.toolUseId in seen
      {
        assert OutputOf(baseline, megasaver, i, e.toolUseId) == Some(e);
      }
      var more, seenNow := CollectRequest(baseline, megasaver, i, items, seen);
      CollectedNext(more, items, baseline, megasaver, i, seenNow, seen);
      items, seen := more, seenNow;
    }
  }

  // ---------- Costliest first ----------

  // Insertion keeps equal costs in the order they came.
  function InsertDescending(items: seq<Expandable>, e: Expandable): seq<Expandable> {
    if items == [] then [e]
    else if items[|items| - 1].costBytes >= e.costBytes then items + [e]
    else InsertDescending(items[..|items| - 1], e) + [items[|items| - 1]]
  }

  lemma {:induction false} InsertAddsOne(items: seq<Expandable>, e: Expandable)
    ensures multiset(InsertDescending(items, e)) == multiset(items) + multiset{e}
  {
    if items != [] {
      InsertAddsOne(items[..|items| - 1], e);
      assert items == items[..|items| - 1] + [items[|items| - 1]];
    }
  }

  lemma {:induction false} InsertKeepsBound(items: seq<Expandable>, e: Expandable, bound: nat)
    requires e.costBytes >= bound && forall i :: 0 <= i < |items| ==> items[i].costBytes >= bound
    ensures forall i :: 0 <= i < |InsertDescending(items, e)| ==> InsertDescending(items, e)[i].costBytes >= bound
  {
    if items != [] {
      InsertKeepsBound(items[..|items| - 1], e, bound);
    }
  }

  lemma {:induction false} InsertKeepsDescending(items: seq<Expandable>, e: Expandable)
    requires Descending(items)
    ensures Descending(InsertDescending(items, e))
  {
    if items != [] && items[|items| - 1].costBytes < e.costBytes {
      var n := |items| - 1;
      InsertKeepsDescending(items[..n], e);
      InsertKeepsBound(items[..n], e, items[n].costBytes);
    }
  }

  method SortDescending(items: seq<Expandable>) returns (sorted: seq<Expandable>)
    ensures Descending(sorted) && multiset(sorted) == multiset(items)
  {
    sorted := [];
    for i := 0 to |items|
      invariant Descending(sorted) && multiset(sorted) == multiset(items[..i])
    {
      assert items[..i + 1] == items[..i] + [items[i]];
      InsertKeepsDescending(sorted, items[i]);
      InsertAddsOne(sorted, items[i]);
      sorted := InsertDescending(sorted, items[i]);
    }
    assert items[..|items|] == items;
  }

  // ---------- The whole calculation ----------

  function SavedBytes(baseline: seq<Measured>, megasaver: seq<Measured>, n: nat): int
    requires n <= |baseline| == |megasaver|
  {
    if n == 0 then 0
    else SavedBytes(baseline, megasaver, n - 1) + (baseline[n - 1].bodyBytes - megasaver[n - 1].bodyBytes)
  }

  lemma SortingKeepsCollected(items: seq<Expandable>, sorted: seq<Expandable>, baseline: seq<Measured>,
                              megasaver: seq<Measured>, n: nat)
    requires n <= |baseline| == |megasaver| && multiset(sorted) == multiset(items)
    requires Collected(items, baseline, megasaver, n)
    ensures Collected(sorted, baseline, megasaver, n)
  {
    forall e
      ensures e in sorted <==> e in items
    {
      assert e in sorted <==> e in multiset(sorted);
      assert e in items <==> e in multiset(items);
    }
    forall i, j | 0 <= i < j < |sorted|
      ensures sorted[i].toolUseId != sorted[j].toolUseId
    {
      if sorted[i].toolUseId == sorted[j].toolUseId {
        assert sorted[i] in items && sorted[j] in items;
        TwiceInOne(sorted, i, j);
        OnceInItems(items, sorted[i]);
        assert false;
      }
    }
  }

  lemma TwiceInOne(s: seq<Expandable>, i: nat, j: nat)
    requires i < j < |s| && s[i] == s[j]
    ensures multiset(s)[s[i]] >= 2
  {
    assert s == s[..i] + [s[i]] + s[i + 1..j] + [s[j]] + s[j + 1..];
  }

  lemma OnceInItems(items: seq<Expandable>, e: Expandable)
    requires forall i, j :: 0 <= i < j < |items| ==> items[i].toolUseId != items[j].toolUseId
    ensures multiset(items)[e] <= 1
  {
    if items != [] {
      var n := |items| - 1;
      assert items == items[..n] + [items[n]];
      OnceInItems(items[..n], e);
      if items[n] == e {
        assert e !in items[..n];
      }
    }
  }

  /** The saving, the expandable outputs costliest first, and how many of them any choice can take. */
  method Calculate(baseline: seq<Measured>, megasaver: seq<Measured>) returns (r: Result<Breakeven, BreakevenError>)
    ensures r.Err? <==> |baseline| != |megasaver|
    ensures r.Ok? ==>
      && r.value.savedBytes == SavedBytes(baseline, megasaver, |baseline|)
      && Collected(r.value.expandable, baseline, megasaver, |baseline|)
      && Descending(r.value.expandable)
      && IsReported(r.value.expandable, r.value.savedBytes, r.value.breakevenCount)
  {
    if |baseline| != |megasaver| {
      return Err(ArmsDiffer(|baseline|, |megasaver|));
    }
    var saved := 0;
    for i := 0 to |baseline|
      invariant saved == SavedBytes(baseline, megasaver, i)
    {
      saved := saved + (baseline[i].bodyBytes - megasaver[i].bodyBytes);
    }
    var items := Collect(baseline, megasaver);
    var expandable := SortDescending(items);
    SortingKeepsCollected(items, expandable, baseline, megasaver, |baseline|);
    var count := CountAffordable(expandable, saved);
    if expandable == [] || saved <= 0 {
      return Ok(Breakeven(saved, expandable, 0));
    }
    return Ok(Breakeven(saved, expandable, count));
  }

  // ---------- What the figures mean ----------

  // The bytes a content of this size adds to the requests from `from` on.
  function RiddenBytes(bytes: nat, from: nat, to: nat): nat {
    if from >= to then 0 else RiddenBytes(bytes, from, to - 1) + bytes
  }

  lemma {:induction false} RidesAdd(bytes: nat, from: nat, to: nat)
    requires from <= to
    ensures RiddenBytes(bytes, from, to) == bytes * (to - from)
  {
    if from < to {
      RidesAdd(bytes, from, to - 1);
      OneRideMore(bytes, to - from);
    }
  }

  lemma OneRideMore(bytes: nat, rides: nat)
    requires rides > 0
    ensures bytes * rides == bytes + bytes * (rides - 1)
  {
  }

  ghost predicate FirstShows(requests: seq<Measured>, id: string, k: int) {
    && 0 <= k < |requests| && SizeOf(requests[k].results, id).Some?
    && forall j :: 0 <= j < k ==> SizeOf(requests[j].results, id) == None
  }

  lemma {:induction false} FirstWithByPosition(requests: seq<Measured>, id: string)
    ensures forall k :: FirstShows(requests, id, k) ==> FirstWith(requests, id) == Some(k)
    ensures FirstWith(requests, id).Some? ==> FirstShows(requests, id, FirstWith(requests, id).value)
    ensures FirstWith(requests, id) == None ==> forall j :: 0 <= j < |requests| ==> SizeOf(requests[j].results, id) == None
  {
    hide SizeOf;
    if requests != [] {
      var n := |requests| - 1;
      FirstWithByPosition(requests[..n], id);
      assert forall j :: 0 <= j < n ==> requests[..n][j] == requests[j];
      var earlier := FirstWith(requests[..n], id);
      if earlier.Some? {
        assert FirstShows(requests[..n], id, earlier.value);
        assert FirstShows(requests, id, earlier.value);
      }
    }
  }

  // What is said of an output that request k shows first, with r bytes in one arm and c in the other.
  ghost predicate Describes(e: Expandable, requests: nat, k: nat, r: nat, c: nat) {
    && e.recoverableBytes == r - c > 0 && e.rawBytes == r && e.firstRequest == k + 1
    && e.ridesInRequests == requests - e.firstRequest
    && e.costBytes == RiddenBytes(r, k + 1, requests)
  }

  /** An expansion re-enters with the whole raw content, in every request after the one that first shows it; an output
      is listed exactly when compression had removed something there. */
  lemma CostIsTheRawContentRidden(baseline: seq<Measured>, megasaver: seq<Measured>, id: string, k: nat)
    requires |baseline| == |megasaver| && FirstShows(baseline, id, k)
    ensures var raw, compressed := SizeOf(baseline[k].results, id), SizeOf(megasaver[k].results, id);
      var o := OutputOf(baseline, megasaver, |baseline|, id);
      && (o.Some? <==> compressed.Some? && compressed.value < raw.value)
      && (o.Some? ==> o.value.toolUseId == id && Describes(o.value, |baseline|, k, raw.value, compressed.value))
  {
    FirstWithByPosition(baseline, id);
    assert baseline[..|baseline|] == baseline;
    RidesAdd(SizeOf(baseline[k].results, id).value, k + 1, |baseline|);
    hide SizeOf, FirstWith;
  }

  function BodyBytes(requests: seq<Measured>): nat {
    if requests == [] then 0 else BodyBytes(requests[..|requests| - 1]) + requests[|requests| - 1].bodyBytes
  }

  /** The saving is what the megasaver arm is smaller. */
  lemma {:induction false} SavingIsTheDifference(baseline: seq<Measured>, megasaver: seq<Measured>, n: nat)
    requires n <= |baseline| == |megasaver|
    ensures SavedBytes(baseline, megasaver, n) == BodyBytes(baseline[..n]) - BodyBytes(megasaver[..n])
  {
    if n > 0 {
      SavingIsTheDifference(baseline, megasaver, n - 1);
      assert baseline[..n][..n - 1] == baseline[..n - 1] && megasaver[..n][..n - 1] == megasaver[..n - 1];
    }
  }
}
