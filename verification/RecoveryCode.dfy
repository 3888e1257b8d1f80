/** Recovery codes (brain-sync/src/keyfile.ts): a 32-byte key and two checksum bytes in base32,
 *  written in dash-separated groups of five.
 */
module RecoveryCode {
  import opened Prelude
  import opened Base32
  import opened Base32Codec

  const KEY_LENGTH := 32
  const CHECKSUM_LENGTH := 2

  // ---------- What is injected ----------

  // A digest of 32 bytes; nothing else about SHA-256 is used.
  ghost predicate IsDigest(sha: seq<int> -> seq<int>) {
    forall key: seq<int> :: |sha(key)| == 32 && AreDigits(sha(key), 256)
  }

  // String.prototype.toUpperCase, character by character; it leaves the alphabet alone.
  ghost predicate IsUpper(upper: char -> string) {
    forall s: int :: 0 <= s < 32 ==> upper(ALPHABET[s]) == [ALPHABET[s]]
  }

  // The characters a JavaScript \s matches.
  predicate IsSpace(c: char) {
    var n := c as int;
    || 9 <= n <= 13 || n == 0x20 || n == 0xa0 || n == 0x1680 || 0x2000 <= n <= 0x200a
    || n == 0x2028 || n == 0x2029 || n == 0x202f || n == 0x205f || n == 0x3000 || n == 0xfeff
  }

  // ---------- Encoding ----------

  function Checksum(sha: seq<int> -> seq<int>, key: seq<int>): seq<int> {
    var digest := sha(key);
    if |digest| < CHECKSUM_LENGTH then digest else digest[..CHECKSUM_LENGTH]
  }

  function Grouped(text: string): string {
    if |text| <= 5 then text else text[..5] + "-" + Grouped(text[5..])
  }

  function EncodeRecoveryCode(sha: seq<int> -> seq<int>, key: seq<int>): string {
    Grouped(Encoded(key + Checksum(sha, key)))
  }

  // ---------- Decoding ----------

  // Dashes and white space go, the rest is upper-cased.
  function Compact(upper: char -> string, code: string): string {
    if code == "" then ""
    else (if code[0] == '-' || IsSpace(code[0]) then "" else upper(code[0])) + Compact(upper, code[1..])
  }

  function DecodeRecoveryCode(sha: seq<int> -> seq<int>, upper: char -> string, code: string)
    : Result<seq<int>, CodeError>
  {
    match Decoded(Compact(upper, code))
    case Err(e) => Err(e)
    case Ok(bytes) =>
      if |bytes| != KEY_LENGTH + CHECKSUM_LENGTH then Err(BadRecoveryCode("wrong length"))
      else
        var key := bytes[..KEY_LENGTH];
        if bytes[KEY_LENGTH..] != Checksum(sha, key) then Err(BadRecoveryCode("checksum does not match"))
        else Ok(key)
  }

  // ---------- The round trip ----------

  ghost predicate IsSymbol(c: char) {
    exists s: int :: 0 <= s < 32 && c == ALPHABET[s]
  }

  ghost predicate InAlphabet(text: string) {
    forall i :: 0 <= i < |text| ==> IsSymbol(text[i])
  }

  lemma AlphabetIsPlain(c: char, s: int)
    requires 0 <= s < 32 && c == ALPHABET[s]
    ensures c != '-' && !IsSpace(c)
  {
    assert ALPHABET[s] as int == if s < 26 then 65 + s else 24 + s;
  }

  lemma {:induction false} CompactOfPlain(upper: char -> string, text: string)
    requires IsUpper(upper) && InAlphabet(text)
    ensures Compact(upper, text) == text
  {
    if text != "" {
      assert IsSymbol(text[0]);
      var s: int :| 0 <= s < 32 && text[0] == ALPHABET[s];
      AlphabetIsPlain(text[0], s);
      CompactOfPlain(upper, text[1..]);
      assert text == [text[0]] + text[1..];
    }
  }

  lemma {:induction false} CompactDistributes(upper: char -> string, a: string, b: string)
    ensures Compact(upper, a + b) == Compact(upper, a) + Compact(upper, b)
  {
    if a == "" {
      assert a + b == b;
    } else {
      assert (a + b)[1..] == a[1..] + b;
      CompactDistributes(upper, a[1..], b);
    }
  }

  lemma DashesVanish(upper: char -> string)
    ensures Compact(upper, "-") == ""
  {
  }

  lemma {:induction false} CompactUndoesGrouping(upper: char -> string, text: string)
    requires IsUpper(upper) && InAlphabet(text)
    ensures Compact(upper, Grouped(text)) == text
    decreases |text|
  {
    hide IsSymbol, IsUpper, Compact, IsSpace;
    if |text| <= 5 {
      CompactOfPlain(upper, text);
    } else {
      var head, tail := text[..5], text[5..];
      CompactOfPlain(upper, head);
      CompactUndoesGrouping(upper, tail);
      CompactDistributes(upper, head, "-" + Grouped(tail));
      CompactDistributes(upper, "-", Grouped(tail));
      DashesVanish(upper);
      assert head + ("-" + Grouped(tail)) == Grouped(text);
    }
  }

  lemma TextIsInAlphabet(symbols: seq<int>)
    requires AreDigits(symbols, 32)
    ensures InAlphabet(TextOf(symbols))
  {
    forall i | 0 <= i < |symbols|
      ensures IsSymbol(TextOf(symbols)[i])
    {
      assert TextOf(symbols)[i] == ALPHABET[symbols[i]];
    }
  }

  lemma CompactOfEncoded(upper: char -> string, bytes: seq<int>)
    requires IsUpper(upper) && AreDigits(bytes, 256)
    ensures Compact(upper, Grouped(Encoded(bytes))) == Encoded(bytes)
  {
    ValueOfEncoding(bytes);
    TextIsInAlphabet(EncodedSymbols(bytes));
    CompactUndoesGrouping(upper, Encoded(bytes));
  }

  ghost predicate IsKey(key: seq<int>) {
    |key| == KEY_LENGTH && AreDigits(key, 256)
  }

  /** The recovery code of a key gives the key back. */
  lemma RecoveryRoundTrip(sha: seq<int> -> seq<int>, upper: char -> string, key: seq<int>)
    requires IsDigest(sha) && IsUpper(upper) && IsKey(key)
    ensures DecodeRecoveryCode(sha, upper, EncodeRecoveryCode(sha, key)) == Ok(key)
  {
    var bytes := key + Checksum(sha, key);
    CompactOfEncoded(upper, bytes);
    RoundTrip(bytes);
    assert bytes[..KEY_LENGTH] == key;
    assert bytes[KEY_LENGTH..] == Checksum(sha, key);
  }

  // ---------- Which codes are accepted ----------

  // 55 symbols hold 275 bits: the 34 bytes, and three bits that decoding drops.
  ghost predicate Carries(sha: seq<int> -> seq<int>, compact: string, key: seq<int>) {
    && |compact| == 55
    && SymbolsOf(compact).Some?
    && Value(SymbolsOf(compact).value, 32) / 8 == Value(key + Checksum(sha, key), 256)
  }

  lemma DecodedBytesAre(symbols: seq<int>, bytes: seq<int>)
    requires AreDigits(symbols, 32) && AreDigits(bytes, 256) && |bytes| == 34
    ensures DecodedBytes(symbols) == bytes <==> |symbols| == 55 && Value(symbols, 32) / 8 == Value(bytes, 256)
  {
    ValueOfDecoding(symbols);
    Constants();
    assert |symbols| == 55 ==> Pow2(5 * |symbols| - 8 * (5 * |symbols| / 8)) == 8;
    assert |DecodedBytes(symbols)| == 34 <==> |symbols| == 55;
    hide DecodedBytes, Pow2, Value, AreDigits;
    if |symbols| == 55 && Value(symbols, 32) / 8 == Value(bytes, 256) {
      ValueIsInjective(DecodedBytes(symbols), bytes, 256);
    }
  }

  /** A code is accepted for a key exactly when its 55 symbols carry the key and its checksum. */
  lemma AcceptedIff(sha: seq<int> -> seq<int>, upper: char -> string, code: string, key: seq<int>)
    requires IsDigest(sha) && IsKey(key)
    ensures DecodeRecoveryCode(sha, upper, code) == Ok(key) <==> Carries(sha, Compact(upper, code), key)
  {
    var compact := Compact(upper, code);
    if SymbolsOf(compact).Some? {
      var symbols := SymbolsOf(compact).value;
      SymbolsAreDigits(compact);
      var bytes := key + Checksum(sha, key);
      DecodedBytesAre(symbols, bytes);
      assert bytes[..KEY_LENGTH] == key && bytes[KEY_LENGTH..] == Checksum(sha, key);
      var found := DecodedBytes(symbols);
      if |found| == 34 {
        assert found == found[..KEY_LENGTH] + found[KEY_LENGTH..];
      }
    }
  }

  /** No code yields anything but a key: 32 bytes that match the checksum in the code. */
  lemma AcceptedIsAKey(sha: seq<int> -> seq<int>, upper: char -> string, code: string)
    requires IsDigest(sha) && DecodeRecoveryCode(sha, upper, code).Ok?
    ensures IsKey(DecodeRecoveryCode(sha, upper, code).value)
  {
    var compact := Compact(upper, code);
    SymbolsAreDigits(compact);
    ValueOfDecoding(SymbolsOf(compact).value);
  }

  /** Two codes accepted for one key agree in all but the last of their symbols, so no other typing
      error there goes unnoticed as the same key. */
  lemma SameKeySameSymbols(sha: seq<int> -> seq<int>, upper: char -> string, c1: string, c2: string)
    requires IsDigest(sha) && DecodeRecoveryCode(sha, upper, c1).Ok?
    requires DecodeRecoveryCode(sha, upper, c1) == DecodeRecoveryCode(sha, upper, c2)
    ensures |Compact(upper, c1)| == |Compact(upper, c2)| == 55
    ensures Compact(upper, c1)[..54] == Compact(upper, c2)[..54]
  {
    var key := DecodeRecoveryCode(sha, upper, c1).value;
    AcceptedIsAKey(sha, upper, c1);
    AcceptedIff(sha, upper, c1, key);
    AcceptedIff(sha, upper, c2, key);
    hide DecodeRecoveryCode;
    SameFront(Compact(upper, c1), Compact(upper, c2));
  }

  lemma SameFront(t1: string, t2: string)
    requires |t1| == |t2| == 55 && SymbolsOf(t1).Some? && SymbolsOf(t2).Some?
    requires Value(SymbolsOf(t1).value, 32) / 8 == Value(SymbolsOf(t2).value, 32) / 8
    ensures t1[..54] == t2[..54]
  {
    var s1, s2 := SymbolsOf(t1).value, SymbolsOf(t2).value;
    SymbolsAreDigits(t1);
    SymbolsAreDigits(t2);
    hide SymbolsOf, Value, SymbolOf;
    assert s1 == s1[..54] + [s1[54]] && s2 == s2[..54] + [s2[54]];
    ValueOfSnoc(s1[..54], s1[54], 32);
    ValueOfSnoc(s2[..54], s2[54], 32);
    EqualUpToThreeBits(Value(s1[..54], 32), s1[54], Value(s2[..54], 32), s2[54]);
    ValueIsInjective(s1[..54], s2[..54], 32);
    assert t1[..54] == TextOf(s1)[..54] == TextOf(s2)[..54] == t2[..54];
  }

  lemma EqualUpToThreeBits(v1: int, d1: Symbol, v2: int, d2: Symbol)
    requires (v1 * 32 + d1) / 8 == (v2 * 32 + d2) / 8
    ensures v1 == v2
  {
  }

  // ---------- What a code spells ----------

  // The key, and the first two bytes of its digest.
  ghost function Spelled(sha: seq<int> -> seq<int>, key: seq<int>): seq<int>
    requires IsDigest(sha)
  {
    key + [sha(key)[0], sha(key)[1]]
  }

  lemma ChecksumIsTheFront(sha: seq<int> -> seq<int>, key: seq<int>)
    requires IsDigest(sha)
    ensures key + Checksum(sha, key) == Spelled(sha, key)
  {
    assert |sha(key)| == 32;
    assert sha(key)[..2] == [sha(key)[0], sha(key)[1]];
  }

  /** A code is accepted for a key exactly when it spells the key and then bytes 0 and 1 of its digest; the key's own
      code spells just that. */
  lemma AcceptedSpellsIff(sha: seq<int> -> seq<int>, upper: char -> string, code: string, key: seq<int>)
    requires IsDigest(sha) && IsKey(key)
    ensures DecodeRecoveryCode(sha, upper, code) == Ok(key) <==> Decoded(Compact(upper, code)) == Ok(Spelled(sha, key))
    ensures IsUpper(upper) ==> Decoded(Compact(upper, EncodeRecoveryCode(sha, key))) == Ok(Spelled(sha, key))
  {
    hide Decoded, Compact, Encoded;
    ChecksumIsTheFront(sha, key);
    var bytes := Spelled(sha, key);
    assert bytes[..KEY_LENGTH] == key && bytes[KEY_LENGTH..] == Checksum(sha, key);
    match Decoded(Compact(upper, code)) {
      case Err(_) =>
      case Ok(found) =>
        if |found| == 34 {
          assert found == found[..KEY_LENGTH] + found[KEY_LENGTH..];
        }
    }
    if IsUpper(upper) {
      CompactOfEncoded(upper, bytes);
      RoundTrip(bytes);
    }
  }

  // Where the dashes are, and what stands between them.
  ghost predicate InFives(text: string, grouped: string) {
    && |grouped| == |text| + (if text == "" then 0 else (|text| - 1) / 5)
    && (forall i :: 0 <= i < |grouped| && i % 6 == 5 ==> grouped[i] == '-')
    && (forall i :: 0 <= i < |grouped| && i % 6 != 5 ==> i - i / 6 < |text| && grouped[i] == text[i - i / 6])
  }

  lemma GroupJoins(head: string, rest: string, text: string, i: nat)
    requires |head| == 5 && 6 <= i < |rest| + 6 && InFives(text, rest)
    ensures (head + "-" + rest)[i] == rest[i - 6] && (i % 6 == 5 <==> (i - 6) % 6 == 5)
    ensures i % 6 == 5 ==> rest[i - 6] == '-'
    ensures i % 6 != 5 ==> 5 <= i - i / 6 < |text| + 5 && rest[i - 6] == text[i - i / 6 - 5]
  {
    assert i / 6 == (i - 6) / 6 + 1 && i % 6 == (i - 6) % 6;
  }

  lemma FiveMore(head: string, text: string, rest: string)
    requires |head| == 5 && text != "" && InFives(text, rest)
    ensures InFives(head + text, head + "-" + rest)
  {
    var all, grouped := head + text, head + "-" + rest;
    assert |grouped| == |all| + (|all| - 1) / 5;
    forall i: nat | i < |grouped|
      ensures i % 6 == 5 ==> grouped[i] == '-'
      ensures i % 6 != 5 ==> i - i / 6 < |all| && grouped[i] == all[i - i / 6]
    {
      if i >= 6 {
        hide InFives;
        GroupJoins(head, rest, text, i);
      }
    }
  }

  /** A code is written in groups of five with a dash between them. */
  lemma {:induction false} GroupsOfFive(text: string)
    ensures InFives(text, Grouped(text))
    decreases |text|
  {
    if |text| > 5 {
      hide InFives;
      GroupsOfFive(text[5..]);
      FiveMore(text[..5], text[5..], Grouped(text[5..]));
      assert text == text[..5] + text[5..];
    }
  }
}
