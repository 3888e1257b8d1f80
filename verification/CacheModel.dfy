/** What the prompt cache charges for a sequence of requests (bench-replay/src/cache-model.ts).
 *
 *  A request is the list of its rendered segments.  The cost is first defined outright, from the
 *  texts of segment-boundary prefixes; the loops of the source are proved against that.
 */
module CacheModel {
  import opened Prelude

  datatype Segment = Segment(text: string, breakpoint: bool)

  datatype Cost = Cost(input: int, creation: int, read: int)

  // ---------- Bytes and texts ----------

  function Utf8Length(c: char): nat {
    var n := c as int;
    if n < 0x80 then 1 else if n < 0x800 then 2 else if n < 0x10000 then 3 else 4
  }

  function ByteLength(s: string): nat {
    if s == "" then 0 else ByteLength(s[..|s| - 1]) + Utf8Length(s[|s| - 1])
  }

  lemma {:induction false} ByteLengthSum(a: string, b: string)
    ensures ByteLength(a + b) == ByteLength(a) + ByteLength(b)
  {
    if b == "" {
      assert a + b == a;
    } else {
      ByteLengthSum(a, b[..|b| - 1]);
      assert (a + b)[..|a + b| - 1] == a + b[..|b| - 1];
    }
  }

  // The text of a whole list of segments.
  function Text(segments: seq<Segment>): string {
    if segments == [] then "" else Text(segments[..|segments| - 1]) + segments[|segments| - 1].text
  }

  lemma TextSnoc(s: seq<Segment>, x: Segment)
    ensures Text(s + [x]) == Text(s) + x.text
  {
    assert (s + [x])[..|s|] == s;
  }

  lemma {:induction false} TextSum(a: seq<Segment>, b: seq<Segment>)
    ensures Text(a + b) == Text(a) + Text(b)
  {
    if b == [] {
      assert a + b == a;
      assert Text(b) == "";
    } else {
      var init, last := b[..|b| - 1], b[|b| - 1];
      TextSum(a, init);
      TextSumSnoc(a, init, last);
      assert b == init + [last];
    }
  }

  lemma TextSumSnoc(a: seq<Segment>, init: seq<Segment>, last: Segment)
    requires Text(a + init) == Text(a) + Text(init)
    ensures Text(a + (init + [last])) == Text(a) + Text(init + [last])
  {
    TextSnoc(init, last);
    TextSnoc(a + init, last);
    hide Text;
    Regroup(a, init, [last]);
    Regroup(Text(a), Text(init), last.text);
  }

  // ---------- The direct definition ----------

  // What a request leaves in the cache: the prefixes that end at its breakpoints.
  ghost predicate Caches(segments: seq<Segment>, prefix: string) {
    exists k :: CachesAt(segments, prefix, k)
  }

  ghost predicate CachesAt(segments: seq<Segment>, prefix: string, k: int) {
    0 <= k < |segments| && segments[k].breakpoint && prefix == Text(segments[..k + 1])
  }

  // Cached by some request of the sequence.
  ghost predicate CachedBy(requests: seq<seq<Segment>>, prefix: string) {
    exists r :: 0 <= r < |requests| && Caches(requests[r], prefix)
  }

  // The longest segment-boundary prefix that some earlier request has cached.
  ghost predicate IsRead(segments: seq<Segment>, earlier: seq<seq<Segment>>, k: nat) {
    && k <= |segments|
    && (k > 0 ==> CachedBy(earlier, Text(segments[..k])))
    && (forall j :: k < j <= |segments| ==> !CachedBy(earlier, Text(segments[..j])))
  }

  // The end of the last breakpoint.
  ghost predicate IsLastBreak(segments: seq<Segment>, k: nat) {
    && k <= |segments|
    && (k > 0 ==> segments[k - 1].breakpoint)
    && (forall j :: k <= j < |segments| ==> !segments[j].breakpoint)
  }

  ghost function ReadEnd(segments: seq<Segment>, earlier: seq<seq<Segment>>): nat {
    if segments == [] then 0
    else if CachedBy(earlier, Text(segments)) then |segments|
    else ReadEnd(segments[..|segments| - 1], earlier)
  }

  function BreakEnd(segments: seq<Segment>): nat {
    if segments == [] then 0
    else if segments[|segments| - 1].breakpoint then |segments|
    else BreakEnd(segments[..|segments| - 1])
  }

  /** ReadEnd is the longest cached prefix, and there is no other. */
  lemma {:induction false} ReadEndIsTheRead(segments: seq<Segment>, earlier: seq<seq<Segment>>, k: nat)
    ensures IsRead(segments, earlier, k) <==> k == ReadEnd(segments, earlier)
  {
    assert segments[..|segments|] == segments;
    if segments != [] && !CachedBy(earlier, Text(segments)) {
      var init := segments[..|segments| - 1];
      ReadEndIsTheRead(init, earlier, k);
      ReadEndIsTheRead(init, earlier, ReadEnd(init, earlier));
      assert forall j :: 0 <= j <= |init| ==> init[..j] == segments[..j];
    }
  }

  lemma {:induction false} BreakEndIsTheLastBreak(segments: seq<Segment>, k: nat)
    ensures IsLastBreak(segments, k) <==> k == BreakEnd(segments)
  {
    if segments != [] && !segments[|segments| - 1].breakpoint {
      var init := segments[..|segments| - 1];
      BreakEndIsTheLastBreak(init, k);
      BreakEndIsTheLastBreak(init, BreakEnd(init));
    }
  }

  lemma {:induction false} EndsAreInside(segments: seq<Segment>, earlier: seq<seq<Segment>>)
    ensures ReadEnd(segments, earlier) <= |segments| && BreakEnd(segments) <= |segments|
  {
    ReadEndIsTheRead(segments, earlier, ReadEnd(segments, earlier));
    BreakEndIsTheLastBreak(segments, BreakEnd(segments));
  }

  function Bytes(segments: seq<Segment>, k: nat): nat {
    if k <= |segments| then ByteLength(Text(segments[..k])) else 0
  }

  // Math.round
  function Round(x: real): int {
    (x + 0.5).Floor
  }

  function Tokens(bytes: int, bytesPerToken: real): int
    requires bytesPerToken > 0.0
  {
    Round(bytes as real / bytesPerToken)
  }

  ghost function RequestCost(segments: seq<Segment>, earlier: seq<seq<Segment>>, bytesPerToken: real): Cost
    requires bytesPerToken > 0.0
  {
    var total := Bytes(segments, |segments|);
    var read := Bytes(segments, ReadEnd(segments, earlier));
    var break_ := Bytes(segments, BreakEnd(segments));
    Cost(Tokens(total - break_, bytesPerToken), Tokens(break_ - read, bytesPerToken), Tokens(read, bytesPerToken))
  }

  function Plus(a: Cost, b: Cost): Cost {
    Cost(a.input + b.input, a.creation + b.creation, a.read + b.read)
  }

  const FREE := Cost(0, 0, 0)

  ghost function TotalCost(requests: seq<seq<Segment>>, bytesPerToken: real): Cost
    requires bytesPerToken > 0.0
  {
    if requests == [] then FREE
    else
      var earlier, last := requests[..|requests| - 1], requests[|requests| - 1];
      Plus(TotalCost(earlier, bytesPerToken), RequestCost(last, earlier, bytesPerToken))
  }

  // ---------- The loops ----------

  ghost predicate Holds(cached: map<string, nat>, digest: string -> string, requests: seq<seq<Segment>>) {
    forall t: string :: digest(t) in cached <==> CachedBy(requests, t)
  }

  datatype SimulationError = BytesPerTokenNotPositive

  // A breakpoint as the source records it: the digest of the prefix and its size.
  datatype Mark = Mark(hash: string, bytes: nat)

  function Marks(segments: seq<Segment>, digest: string -> string): seq<Mark> {
    if segments == [] then []
    else
      Marks(segments[..|segments| - 1], digest)
      + if segments[|segments| - 1].breakpoint then [Mark(digest(Text(segments)), ByteLength(Text(segments)))] else []
  }

  lemma CachesSnoc(segments: seq<Segment>, t: string)
    requires segments != []
    ensures Caches(segments, t) <==>
      Caches(segments[..|segments| - 1], t) || (segments[|segments| - 1].breakpoint && t == Text(segments))
  {
    var n := |segments| - 1;
    var init := segments[..n];
    forall k
      ensures CachesAt(segments, t, k) <==>
        CachesAt(init, t, k) || (k == n && segments[n].breakpoint && t == Text(segments))
    {
      CachesAtSnoc(segments, t, k);
    }
    hide CachesAt;
    assert segments[n].breakpoint && t == Text(segments) ==> CachesAt(segments, t, n);
  }

  lemma CachesAtSnoc(segments: seq<Segment>, t: string, k: int)
    requires segments != []
    ensures var n := |segments| - 1;
      CachesAt(segments, t, k) <==>
        CachesAt(segments[..n], t, k) || (k == n && segments[n].breakpoint && t == Text(segments))
  {
    var n := |segments| - 1;
    if 0 <= k < n {
      assert segments[..n][..k + 1] == segments[..k + 1];
    } else if k == n {
      assert segments[..k + 1] == segments;
    }
  }

  ghost predicate HasMark(marks: seq<Mark>, hash: string) {
    exists m :: 0 <= m < |marks| && marks[m].hash == hash
  }

  lemma {:induction false} MarksAreTheCachedPrefixes(segments: seq<Segment>, digest: string -> string, t: string)
    requires CollisionFree(digest)
    ensures HasMark(Marks(segments, digest), digest(t)) <==> Caches(segments, t)
  {
    if segments != [] {
      var init := segments[..|segments| - 1];
      var marks, before := Marks(segments, digest), Marks(init, digest);
      MarksAreTheCachedPrefixes(init, digest, t);
      CachesSnoc(segments, t);
      assert forall m :: 0 <= m < |before| ==> marks[m] == before[m];
      if HasMark(before, digest(t)) {
        var m :| 0 <= m < |before| && before[m].hash == digest(t);
        assert marks[m].hash == digest(t);
      }
      if segments[|segments| - 1].breakpoint {
        assert marks[|before|].hash == digest(Text(segments));
      }
    }
  }

  lemma {:induction false} LastMarkIsTheLastBreak(segments: seq<Segment>, digest: string -> string)
    ensures var marks := Marks(segments, digest);
      Bytes(segments, BreakEnd(segments)) == if marks == [] then 0 else marks[|marks| - 1].bytes
  {
    if segments != [] {
      var n := |segments| - 1;
      LastMarkIsTheLastBreak(segments[..n], digest);
      EndsAreInside(segments[..n], []);
      hide Text, ByteLength;
      if segments[n].breakpoint {
        assert segments[..|segments|] == segments;
      } else {
        var k := BreakEnd(segments[..n]);
        hide Marks;
        assert segments[..n][..k] == segments[..k];
        assert Marks(segments, digest) == Marks(segments[..n], digest) by {
          UnmarkedSegment(segments, digest);
        }
      }
    }
  }

  lemma UnmarkedSegment(segments: seq<Segment>, digest: string -> string)
    requires segments != [] && !segments[|segments| - 1].breakpoint
    ensures Marks(segments, digest) == Marks(segments[..|segments| - 1], digest)
  {
  }

  // One pass over the segments of a request: its size, the longest match and its breakpoints.
  method Scan(segments: seq<Segment>, cached: map<string, nat>, digest: string -> string, ghost earlier: seq<seq<Segment>>)
    returns (bytes: nat, readBytes: nat, marks: seq<Mark>)
    requires CollisionFree(digest) && Holds(cached, digest, earlier)
    ensures bytes == Bytes(segments, |segments|)
    ensures readBytes == Bytes(segments, ReadEnd(segments, earlier))
    ensures marks == Marks(segments, digest)
  {
    hide CachedBy, CollisionFree;
    bytes, readBytes, marks := 0, 0, [];
    var running := "";
    for k := 0 to |segments|
      invariant running == Text(segments[..k]) && bytes == ByteLength(running)
      invariant readBytes == Bytes(segments[..k], ReadEnd(segments[..k], earlier))
      invariant marks == Marks(segments[..k], digest)
    {
      var segment := segments[k];
      assert segments[..k + 1][..k] == segments[..k];
      assert segments[..k + 1][..k + 1] == segments[..k + 1];
      ByteLengthSum(running, segment.text);
      EndsAreInside(segments[..k], earlier);
      assert segments[..k][..ReadEnd(segments[..k], earlier)] == segments[..k + 1][..ReadEnd(segments[..k], earlier)];
      bytes := bytes + ByteLength(segment.text);
      running := running + segment.text;
      var hash := digest(running);
      if hash in cached {
        readBytes := bytes;
      }
      if segment.breakpoint {
        marks := marks + [Mark(hash, bytes)];
      }
    }
    assert segments[..|segments|] == segments;
  }

  method Store(cached: map<string, nat>, marks: seq<Mark>) returns (r: map<string, nat>)
    ensures forall h: string :: h in r <==> h in cached || HasMark(marks, h)
  {
    r := cached;
    for m := 0 to |marks|
      invariant forall h: string :: h in r <==> h in cached || HasMark(marks[..m], h)
    {
      forall h: string
        ensures HasMark(marks[..m + 1], h) <==> HasMark(marks[..m], h) || h == marks[m].hash
      {
        assert marks[..m + 1][m] == marks[m];
        if HasMark(marks[..m], h) {
          var n :| 0 <= n < m && marks[..m][n].hash == h;
          assert marks[..m + 1][n].hash == h;
        }
        if HasMark(marks[..m + 1], h) {
          var n :| 0 <= n < m + 1 && marks[..m + 1][n].hash == h;
          assert n < m ==> marks[..m][n].hash == h;
        }
      }
      r := r[marks[m].hash := marks[m].bytes];
    }
    assert marks[..|marks|] == marks;
  }

  lemma CachedBySnoc(requests: seq<seq<Segment>>, last: seq<Segment>, t: string)
    ensures CachedBy(requests + [last], t) <==> CachedBy(requests, t) || Caches(last, t)
  {
    var all := requests + [last];
    if CachedBy(requests, t) {
      var r :| 0 <= r < |requests| && Caches(requests[r], t);
      assert Caches(all[r], t);
    }
    if Caches(last, t) {
      assert Caches(all[|requests|], t);
    }
  }

  method SimulateCacheCost(requests: seq<seq<Segment>>, bytesPerToken: real, digest: string -> string)
    returns (r: Result<Cost, SimulationError>)
    requires CollisionFree(digest)
    ensures r == if bytesPerToken > 0.0 then Ok(TotalCost(requests, bytesPerToken)) else Err(BytesPerTokenNotPositive)
  {
    hide CachedBy, Caches, Holds, CollisionFree, Tokens, Marks, Bytes, HasMark, RequestCost, ReadEnd, BreakEnd, TotalCost;
    if !(bytesPerToken > 0.0) {
      return Err(BytesPerTokenNotPositive);
    }
    var cached: map<string, nat> := map[];
    var total := FREE;
    NothingIsCachedYet(digest);
    NothingIsFree(bytesPerToken);
    for i := 0 to |requests|
      invariant Holds(cached, digest, requests[..i])
      invariant total == TotalCost(requests[..i], bytesPerToken)
    {
      assert requests[..i + 1] == requests[..i] + [requests[i]];
      OneRequestMore(requests, i, bytesPerToken);
      CostOfEnds(requests[i], requests[..i], ReadEnd(requests[i], requests[..i]), BreakEnd(requests[i]), bytesPerToken);
      var bytes, readBytes, marks := Scan(requests[i], cached, digest, requests[..i]);
      var lastBreakpointBytes := if marks == [] then 0 else marks[|marks| - 1].bytes;
      LastMarkIsTheLastBreak(requests[i], digest);
      total := Plus(total, Cost(Tokens(bytes - lastBreakpointBytes, bytesPerToken),
                                Tokens(lastBreakpointBytes - readBytes, bytesPerToken),
                                Tokens(readBytes, bytesPerToken)));
      ghost var before := cached;
      cached := Store(cached, marks);
      StoredHolds(before, cached, digest, requests[..i], requests[i]);
    }
    assert requests[..|requests|] == requests;
    return Ok(total);
  }

  lemma NothingIsFree(bytesPerToken: real)
    requires bytesPerToken > 0.0
    ensures TotalCost([], bytesPerToken) == FREE
  {
  }

  lemma OneRequestMore(requests: seq<seq<Segment>>, i: nat, bytesPerToken: real)
    requires bytesPerToken > 0.0 && i < |requests|
    ensures TotalCost(requests[..i + 1], bytesPerToken)
      == Plus(TotalCost(requests[..i], bytesPerToken), RequestCost(requests[i], requests[..i], bytesPerToken))
  {
    hide RequestCost;
    assert requests[..i + 1][..i] == requests[..i];
  }

  lemma NothingIsCachedYet(digest: string -> string)
    ensures Holds(map[], digest, [])
  {
  }

  lemma StoredHolds(before: map<string, nat>, after: map<string, nat>, digest: string -> string,
                    earlier: seq<seq<Segment>>, last: seq<Segment>)
    requires CollisionFree(digest) && Holds(before, digest, earlier)
    requires forall h: string :: h in after <==> h in before || HasMark(Marks(last, digest), h)
    ensures Holds(after, digest, earlier + [last])
  {
    hide CachedBy, Caches, HasMark, CollisionFree;
    forall t: string
      ensures digest(t) in after <==> CachedBy(earlier + [last], t)
    {
      assert digest(t) in before <==> CachedBy(earlier, t);
      CachedBySnoc(earlier, last, t);
      MarksAreTheCachedPrefixes(last, digest, t);
    }
  }

  // ---------- Conservation ----------

  function TotalBytes(requests: seq<seq<Segment>>): nat {
    if requests == [] then 0
    else TotalBytes(requests[..|requests| - 1]) + Bytes(requests[|requests| - 1], |requests[|requests| - 1]|)
  }

  function AllTokens(c: Cost): int {
    c.input + c.creation + c.read
  }

  // Rounding moves a number by at most one half.
  lemma RoundingError(x: real)
    ensures x - 0.5 <= Round(x) as real <= x + 0.5
  {
  }

  lemma TokensOfParts(a: int, b: int, c: int, bytesPerToken: real)
    requires bytesPerToken > 0.0
    ensures var sum := (Tokens(a, bytesPerToken) + Tokens(b, bytesPerToken) + Tokens(c, bytesPerToken)) as real;
      (a + b + c) as real / bytesPerToken - 1.5 <= sum <= (a + b + c) as real / bytesPerToken + 1.5
  {
    var x, y, z := a as real / bytesPerToken, b as real / bytesPerToken, c as real / bytesPerToken;
    RoundingError(x);
    RoundingError(y);
    RoundingError(z);
    assert (a + b + c) as real == a as real + b as real + c as real;
    assert (a as real + b as real + c as real) / bytesPerToken == x + y + z;
  }

  ghost predicate Near(tokens: int, bytes: int, bytesPerToken: real, requests: nat)
    requires bytesPerToken > 0.0
  {
    var exact, slack := bytes as real / bytesPerToken, 1.5 * requests as real;
    exact - slack <= tokens as real <= exact + slack
  }

  /** The three charges of a sequence, creation possibly negative, sum to its bytes over bytes-per-token up to
      rounding, at most one and a half per request. */
  lemma {:induction false} NoByteIsLost(requests: seq<seq<Segment>>, bytesPerToken: real)
    requires bytesPerToken > 0.0
    ensures Near(AllTokens(TotalCost(requests, bytesPerToken)), TotalBytes(requests), bytesPerToken, |requests|)
  {
    hide Near, RequestCost, Bytes;
    if requests == [] {
      NothingIsNear(bytesPerToken);
    } else {
      var earlier, last := requests[..|requests| - 1], requests[|requests| - 1];
      NoByteIsLost(earlier, bytesPerToken);
      RequestIsNear(last, earlier, bytesPerToken);
      TotalCostSnoc(requests, bytesPerToken);
      NearSum(AllTokens(TotalCost(earlier, bytesPerToken)), TotalBytes(earlier), |earlier|,
              AllTokens(RequestCost(last, earlier, bytesPerToken)), Bytes(last, |last|), 1, bytesPerToken);
    }
  }

  lemma NothingIsNear(bytesPerToken: real)
    requires bytesPerToken > 0.0
    ensures Near(0, 0, bytesPerToken, 0)
  {
    assert 0 as real / bytesPerToken == 0.0;
  }

  lemma TotalCostSnoc(requests: seq<seq<Segment>>, bytesPerToken: real)
    requires bytesPerToken > 0.0 && requests != []
    ensures var earlier, last := requests[..|requests| - 1], requests[|requests| - 1];
      AllTokens(TotalCost(requests, bytesPerToken))
      == AllTokens(TotalCost(earlier, bytesPerToken)) + AllTokens(RequestCost(last, earlier, bytesPerToken))
  {
    hide RequestCost;
  }

  lemma RequestIsNear(segments: seq<Segment>, earlier: seq<seq<Segment>>, bytesPerToken: real)
    requires bytesPerToken > 0.0
    ensures Near(AllTokens(RequestCost(segments, earlier, bytesPerToken)), Bytes(segments, |segments|), bytesPerToken, 1)
  {
    hide Bytes, ReadEnd, BreakEnd, Tokens;
    var total: int, read: int := Bytes(segments, |segments|), Bytes(segments, ReadEnd(segments, earlier));
    var break_: int := Bytes(segments, BreakEnd(segments));
    TokensOfParts(total - break_, break_ - read, read, bytesPerToken);
  }

  lemma NearSum(t1: int, b1: int, n1: nat, t2: int, b2: int, n2: nat, bytesPerToken: real)
    requires bytesPerToken > 0.0 && Near(t1, b1, bytesPerToken, n1) && Near(t2, b2, bytesPerToken, n2)
    ensures Near(t1 + t2, b1 + b2, bytesPerToken, n1 + n2)
  {
    DivideSum(b1, b2, bytesPerToken);
    assert (n1 + n2) as real == n1 as real + n2 as real && (t1 + t2) as real == t1 as real + t2 as real;
  }

  lemma DivideSum(a: int, b: int, d: real)
    requires d > 0.0
    ensures (a + b) as real / d == a as real / d + b as real / d
  {
    assert (a + b) as real == a as real + b as real;
  }

  // ---------- Which bytes are charged how often ----------

  ghost function ReadBytes(segments: seq<Segment>, earlier: seq<seq<Segment>>): nat {
    Bytes(segments, ReadEnd(segments, earlier))
  }

  function BreakBytes(segments: seq<Segment>): nat {
    Bytes(segments, BreakEnd(segments))
  }

  // Before rounding: what RequestCost turns into tokens.
  ghost function CreationBytes(segments: seq<Segment>, earlier: seq<seq<Segment>>): int {
    BreakBytes(segments) - ReadBytes(segments, earlier)
  }

  // How often byte b of the request is paid for: as read, as creation, as input.
  ghost function Charges(segments: seq<Segment>, earlier: seq<seq<Segment>>, b: nat): nat {
    var read, break_ := ReadBytes(segments, earlier), BreakBytes(segments);
    (if b < read then 1 else 0) + (if read <= b < break_ then 1 else 0) + (if break_ <= b then 1 else 0)
  }

  lemma {:induction false} BytesGrow(segments: seq<Segment>, j: nat, k: nat)
    requires j <= k <= |segments|
    ensures Bytes(segments, j) <= Bytes(segments, k)
  {
    if j < k {
      BytesGrow(segments, j, k - 1);
      assert segments[..k][..k - 1] == segments[..k - 1];
      ByteLengthSum(Text(segments[..k - 1]), segments[k - 1].text);
    }
  }

  // No cached prefix ends past the bytes of the last breakpoint.
  ghost predicate NothingCachedPastBreak(segments: seq<Segment>, earlier: seq<seq<Segment>>) {
    forall j :: 0 < j <= |segments| && CachedBy(earlier, Text(segments[..j])) ==> Bytes(segments, j) <= BreakBytes(segments)
  }

  /** Every byte of a request is paid for exactly once, and creation is not negative, exactly when no earlier
      request cached a prefix that ends past the request's own last breakpoint. */
  lemma ChargedOnceIff(segments: seq<Segment>, earlier: seq<seq<Segment>>)
    ensures CreationBytes(segments, earlier) >= 0 <==> NothingCachedPastBreak(segments, earlier)
    ensures (forall b :: 0 <= b < Bytes(segments, |segments|) ==> Charges(segments, earlier, b) == 1)
      <==> NothingCachedPastBreak(segments, earlier)
  {
    var k := ReadEnd(segments, earlier);
    ReadEndIsTheRead(segments, earlier, k);
    hide ReadEnd, BreakEnd, Text, CachedBy, ByteLength;
    BytesGrow(segments, k, |segments|);
    assert CreationBytes(segments, earlier) >= 0 <==> NothingCachedPastBreak(segments, earlier) by {
      forall j | 0 < j <= |segments| && CachedBy(earlier, Text(segments[..j]))
        ensures Bytes(segments, j) <= Bytes(segments, k)
      {
        BytesGrow(segments, j, k);
      }
      NothingReadIsNothing(segments, k);
    }
    if CreationBytes(segments, earlier) < 0 {
      assert Charges(segments, earlier, BreakBytes(segments)) == 2;
    }
  }

  lemma NothingReadIsNothing(segments: seq<Segment>, k: nat)
    ensures k == 0 ==> Bytes(segments, k) == 0
  {
    assert segments[..0] == [];
  }

  /** A request without breakpoints that repeats a cached one pays for its bytes as read and again as input,
      and is credited them as negative creation. */
  lemma ReadPastBreakIsChargedTwice()
    ensures var cached, request := [Segment("ab", true)], [Segment("ab", false)];
      && RequestCost(request, [cached], 1.0) == Cost(2, -2, 2)
      && CreationBytes(request, [cached]) == -2 && Charges(request, [cached], 0) == 2
  {
    var request := [Segment("ab", false)];
    OneSegment(Segment("ab", false));
    OneIsRead();
    assert BreakEnd(request) == 0 by {
      assert request[..0] == [] && BreakEnd([]) == 0;
    }
    hide ReadEnd, BreakEnd, Bytes, RequestCost, CreationBytes, Charges;
    ReadWithoutBreak(request, [[Segment("ab", true)]], 2);
  }

  lemma ReadWithoutBreak(segments: seq<Segment>, earlier: seq<seq<Segment>>, n: nat)
    requires ReadEnd(segments, earlier) == |segments| && BreakEnd(segments) == 0
    requires Bytes(segments, |segments|) == n && Bytes(segments, 0) == 0
    ensures var m: int := n;
      && RequestCost(segments, earlier, 1.0) == Cost(m, -m, m) && CreationBytes(segments, earlier) == -m
    ensures n > 0 ==> Charges(segments, earlier, 0) == 2
  {
    hide ReadEnd, BreakEnd, Bytes, Tokens;
    WholeTokens(n);
    var m: int := n;
    WholeTokens(-m);
  }

  lemma WholeTokens(n: int)
    ensures Tokens(n, 1.0) == n
  {
    assert n as real / 1.0 == n as real;
  }

  lemma OneIsRead()
    ensures ReadEnd([Segment("ab", false)], [[Segment("ab", true)]]) == 1
  {
    var cached, request := [Segment("ab", true)], [Segment("ab", false)];
    OneSegment(Segment("ab", true));
    OneSegment(Segment("ab", false));
    hide Text, ByteLength;
    assert CachesAt(cached, Text(request), 0);
    assert Caches([cached][0], Text(request));
  }

  lemma OneSegment(s: Segment)
    requires s.text == "ab"
    ensures Text([s]) == "ab" && [s][..1] == [s] && Bytes([s], 1) == 2 && Bytes([s], 0) == 0
  {
    assert [s][..0] == [] && Text([]) == "";
    assert "ab"[..1] == "a" && "a"[..0] == "";
    assert ByteLength("a") == 1 && ByteLength("ab") == 2;
  }

  // ---------- Which figure is which ----------

  lemma BytesOfSlice(segments: seq<Segment>, j: nat, k: nat)
    requires j <= k <= |segments|
    ensures Bytes(segments, k) - Bytes(segments, j) == ByteLength(Text(segments[j..k]))
  {
    assert segments[..k] == segments[..j] + segments[j..k];
    TextSum(segments[..j], segments[j..k]);
    ByteLengthSum(Text(segments[..j]), Text(segments[j..k]));
  }

  // The size of the segments from j to k.
  function SliceBytes(segments: seq<Segment>, j: nat, k: nat): nat {
    if j <= k <= |segments| then ByteLength(Text(segments[j..k])) else 0
  }

  /** What lies before the end of the longest cached prefix is charged as read, from there to the last breakpoint as
      creation, and what follows that as input. */
  lemma FiguresByPosition(segments: seq<Segment>, earlier: seq<seq<Segment>>, r: nat, b: nat, bytesPerToken: real)
    requires bytesPerToken > 0.0 && IsRead(segments, earlier, r) && IsLastBreak(segments, b)
    ensures RequestCost(segments, earlier, bytesPerToken) ==
      Cost(Tokens(SliceBytes(segments, b, |segments|), bytesPerToken),
           Tokens(SliceBytes(segments, r, b) - SliceBytes(segments, b, r), bytesPerToken),
           Tokens(SliceBytes(segments, 0, r), bytesPerToken))
  {
    hide *;
    ReadEndIsTheRead(segments, earlier, r);
    BreakEndIsTheLastBreak(segments, b);
    EndsAreInside(segments, earlier);
    CostOfEnds(segments, earlier, r, b, bytesPerToken);
    SlicesAdd(segments, b, |segments|);
    SlicesAdd(segments, 0, r);
    SlicesAdd(segments, r, b);
    NothingReadIsNothing(segments, 0);
  }

  lemma CostOfEnds(segments: seq<Segment>, earlier: seq<seq<Segment>>, r: nat, b: nat, bytesPerToken: real)
    requires bytesPerToken > 0.0 && r == ReadEnd(segments, earlier) && b == BreakEnd(segments)
    ensures RequestCost(segments, earlier, bytesPerToken) ==
      Cost(Tokens(Bytes(segments, |segments|) - Bytes(segments, b), bytesPerToken),
           Tokens(Bytes(segments, b) - Bytes(segments, r), bytesPerToken),
           Tokens(Bytes(segments, r), bytesPerToken))
  {
    hide ReadEnd, BreakEnd, Bytes, Tokens;
  }

  lemma SlicesAdd(segments: seq<Segment>, j: nat, k: nat)
    requires j <= |segments| && k <= |segments|
    ensures SliceBytes(segments, j, k) - SliceBytes(segments, k, j) == Bytes(segments, k) - Bytes(segments, j)
    ensures j < k ==> SliceBytes(segments, k, j) == 0
    ensures j == 0 || k == |segments| ==> SliceBytes(segments, j, k) == Bytes(segments, k) - Bytes(segments, j)
  {
    hide Text, Bytes;
    if j <= k {
      BytesOfSlice(segments, j, k);
    }
    if k <= j {
      BytesOfSlice(segments, k, j);
    }
  }

  /** At one byte per token, when every byte is charged once, the figures count the bytes of the three parts. */
  lemma FiguresCountBytes(segments: seq<Segment>, earlier: seq<seq<Segment>>, r: nat, b: nat)
    requires IsRead(segments, earlier, r) && IsLastBreak(segments, b) && NothingCachedPastBreak(segments, earlier)
    ensures RequestCost(segments, earlier, 1.0) ==
      Cost(SliceBytes(segments, b, |segments|), SliceBytes(segments, r, b), SliceBytes(segments, 0, r))
  {
    FiguresByPosition(segments, earlier, r, b, 1.0);
    ReadEndIsTheRead(segments, earlier, r);
    BreakEndIsTheLastBreak(segments, b);
    ChargedOnceIff(segments, earlier);
    assert r <= |segments| && b <= |segments|;
    hide ReadEnd, BreakEnd, Text, ByteLength, Tokens, IsRead, IsLastBreak, RequestCost, CachedBy, NothingCachedPastBreak;
    if b <= r {
      BytesOfSlice(segments, b, r);
    }
    WholeTokens(SliceBytes(segments, r, b));
    WholeTokens(SliceBytes(segments, b, |segments|));
    WholeTokens(SliceBytes(segments, 0, r));
  }

  /** A request of which nothing is cached reads nothing, at any rate. */
  lemma ColdRequestReadsNothing(segments: seq<Segment>, earlier: seq<seq<Segment>>, bytesPerToken: real)
    requires bytesPerToken > 0.0
    requires forall j :: 0 < j <= |segments| ==> !CachedBy(earlier, Text(segments[..j]))
    ensures RequestCost(segments, earlier, bytesPerToken).read == 0
  {
    ReadEndIsTheRead(segments, earlier, 0);
    hide Tokens, Text, CachedBy;
    assert segments[..0] == [];
    NothingReadIsNothing(segments, 0);
    ZeroTokens(bytesPerToken);
  }

  lemma ZeroTokens(bytesPerToken: real)
    requires bytesPerToken > 0.0
    ensures Tokens(0, bytesPerToken) == 0
  {
    assert 0 as real / bytesPerToken == 0.0;
  }

  lemma CostSnoc(requests: seq<seq<Segment>>, last: seq<Segment>)
    ensures TotalCost(requests + [last], 1.0) == Plus(TotalCost(requests, 1.0), RequestCost(last, requests, 1.0))
  {
    hide RequestCost;
    assert (requests + [last])[..|requests|] == requests;
  }

  lemma TwoRequests(first: seq<Segment>, second: seq<Segment>, a: Cost, b: Cost)
    requires RequestCost(first, [], 1.0) == a && RequestCost(second, [first], 1.0) == b
    ensures TotalCost([first, second], 1.0) == Cost(a.input + b.input, a.creation + b.creation, a.read + b.read)
  {
    hide RequestCost;
    CostSnoc([], first);
    CostSnoc([first], second);
    assert [] + [first] == [first] && [first] + [second] == [first, second];
    assert TotalCost([], 1.0) == FREE;
    hide TotalCost;
  }

  lemma NoText()
    ensures Text([]) == ""
  {
  }

  lemma TextOfOne(x: Segment)
    ensures Text([x]) == x.text
  {
    NoText();
    TextSnoc([], x);
    assert [] + [x] == [x];
    hide Text;
    assert "" + x.text == x.text;
  }

  lemma SliceOfOne(segments: seq<Segment>, k: nat)
    requires k < |segments|
    ensures SliceBytes(segments, k, k + 1) == ByteLength(segments[k].text)
  {
    hide Text, ByteLength;
    assert segments[k..k + 1] == [segments[k]];
    TextOfOne(segments[k]);
  }

  lemma FirstIsCold(x: Segment)
    requires x.breakpoint
    ensures RequestCost([x], [], 1.0) == Cost(0, ByteLength(x.text), 0)
  {
    assert IsRead([x], [], 0) && IsLastBreak([x], 1) && NothingCachedPastBreak([x], []);
    assert SliceBytes([x], 1, 1) == 0 && SliceBytes([x], 0, 0) == 0;
    hide IsRead, IsLastBreak, RequestCost, ByteLength, Text;
    FiguresCountBytes([x], [], 0, 1);
    SliceOfOne([x], 0);
  }

  lemma OnlyFirstIsCached(x: Segment, t: string)
    requires x.breakpoint
    ensures CachedBy([[x]], t) <==> t == x.text
  {
    assert [x][..1] == [x];
    TextOfOne(x);
    hide Text;
    if t == x.text {
      assert CachesAt([x], t, 0);
      assert Caches([[x]][0], t);
    }
  }

  lemma SecondReadsTheFirst(x: Segment, second: seq<Segment>)
    requires x.breakpoint && |second| == 3 && second[0].text == x.text && ByteLength(second[1].text) > 0
    ensures IsRead(second, [[x]], 1)
  {
    hide ByteLength, CachedBy, Text;
    OnlyFirstIsCached(x, Text(second[..1]));
    SliceOfOne(second, 1);
    BytesOfSlice(second, 1, 2);
    BytesGrow(second, 2, 3);
    TextOfOne(second[0]);
    assert second[..1] == [second[0]];
    forall j | 1 < j <= 3 ensures !CachedBy([[x]], Text(second[..j])) {
      OnlyFirstIsCached(x, Text(second[..j]));
    }
  }

  // A first request of one cached segment, and a second that repeats it, caches another and ends with a third.
  lemma FirstThenSecond(x: Segment, y: Segment, z: Segment, w: Segment, a: nat, b: nat, c: nat)
    requires x.text == y.text && x.breakpoint && !y.breakpoint && z.breakpoint && !w.breakpoint
    requires ByteLength(x.text) == a && ByteLength(z.text) == b > 0 && ByteLength(w.text) == c
    ensures TotalCost([[x], [y, z, w]], 1.0) == Cost(c, a + b, a)
  {
    var second := [y, z, w];
    hide *;
    SecondReadsTheFirst(x, second);
    ThirdIsNoBreak(second);
    NothingPastSecond(x, second);
    FiguresCountBytes(second, [[x]], 1, 2);
    SliceOfOne(second, 0);
    SliceOfOne(second, 1);
    SliceOfOne(second, 2);
    FirstIsCold(x);
    TwoRequests([x], second, Cost(0, a, 0), Cost(c, b, a));
  }

  lemma ThirdIsNoBreak(second: seq<Segment>)
    requires |second| == 3 && second[1].breakpoint && !second[2].breakpoint
    ensures IsLastBreak(second, 2)
  {
  }

  lemma NothingPastSecond(x: Segment, second: seq<Segment>)
    requires |second| == 3 && IsRead(second, [[x]], 1) && IsLastBreak(second, 2)
    ensures NothingCachedPastBreak(second, [[x]])
  {
    BreakEndIsTheLastBreak(second, 2);
    BytesGrow(second, 1, 2);
    hide CachedBy, Text, ByteLength, BreakEnd;
  }

  /** Two bytes are cached; of the next request's nine they are read, three more are cached and four are input. */
  lemma ThreeFigures()
    ensures TotalCost([[Segment("ab", true)], [Segment("ab", false), Segment("cde", true), Segment("fghi", false)]], 1.0)
      == Cost(4, 5, 2)
  {
    var t := "fghi";
    assert "ab"[..1] == "a" && "cde"[..2] == "cd" && "cd"[..1] == "c" && t[..3] == "fgh" && "fgh"[..2] == "fg" && "fg"[..1] == "f";
    assert ByteLength("a") == 1 && ByteLength("ab") == 2;
    assert ByteLength("c") == 1 && ByteLength("cd") == 2 && ByteLength("cde") == 3;
    assert ByteLength("f") == 1 && ByteLength("fg") == 2 && ByteLength("fgh") == 3 && ByteLength("fghi") == 4;
    hide *;
    FirstThenSecond(Segment("ab", true), Segment("ab", false), Segment("cde", true), Segment("fghi", false), 2, 3, 4);
  }

  // ---------- A growing conversation ----------

  // The same texts, whatever the breakpoints: cache_control is a marker, not content.
  ghost predicate SameTexts(a: seq<Segment>, b: seq<Segment>) {
    |a| == |b| && forall k :: 0 <= k < |a| ==> a[k].text == b[k].text
  }

  lemma {:induction false} SameTextsSameText(a: seq<Segment>, b: seq<Segment>)
    requires SameTexts(a, b)
    ensures Text(a) == Text(b)
  {
    if a != [] {
      SameTextsSameText(a[..|a| - 1], b[..|b| - 1]);
    }
  }

  /** A request that repeats an earlier one's segments, up to moved breakpoints, reads back at least
      what that one had cached. */
  lemma RepeatedPrefixIsRead(requests: seq<seq<Segment>>, r: nat, segments: seq<Segment>)
    requires r < |requests| && |requests[r]| <= |segments|
    requires SameTexts(requests[r], segments[..|requests[r]|])
    ensures BreakEnd(requests[r]) <= ReadEnd(segments, requests)
  {
    var k := BreakEnd(requests[r]);
    BreakEndIsTheLastBreak(requests[r], k);
    ReadEndIsTheRead(segments, requests, ReadEnd(segments, requests));
    if k > 0 {
      assert requests[r][k - 1].breakpoint && requests[r][..(k - 1) + 1] == requests[r][..k];
      assert CachesAt(requests[r], Text(requests[r][..k]), k - 1);
      assert segments[..|requests[r]|][..k] == segments[..k];
      SameTextsSameText(requests[r][..k], segments[..k]);
      assert CachedBy(requests, Text(segments[..k]));
    }
  }
}
