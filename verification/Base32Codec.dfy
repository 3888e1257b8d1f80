/** The two loops of brain-sync/src/base32.ts against Base32, and the round trip. */
module Base32Codec {
  import opened Prelude
  import opened Base32

  // ---------- Values and lengths ----------

  lemma {:induction false} ValueFits(s: seq<int>, k: nat)
    requires AreDigits(s, Pow2(k))
    ensures 0 <= Value(s, Pow2(k)) < Pow2(k * |s|)
  {
    if s == [] {
    } else {
      hide Pow2;
      var n := |s| - 1;
      ValueFits(s[..n], k);
      Pow2Sum(k * n, k);
      assert k * n + k == k * |s|;
      DigitFits(Value(s[..n], Pow2(k)), Pow2(k * n), Pow2(k), s[n]);
    }
  }

  lemma QuotientBelow(n: nat, d: nat, b: nat)
    requires n < b * d
    ensures d > 0 && 0 <= n / d < b
  {
    QuotientIsNat(n, d);
    assert n == d * (n / d) + n % d;
    if n / d >= b {
      Multiply(d, b, n / d);
      assert false;
    }
  }

  lemma QuotientFits(n: nat, k: nat, length: nat)
    requires n < Pow2(k * length + k)
    ensures 0 <= n / Pow2(k) < Pow2(k * length)
  {
    hide Pow2;
    Pow2Sum(k * length, k);
    QuotientBelow(n, Pow2(k), Pow2(k * length));
  }

  lemma {:induction false} ValueOfDigits(n: nat, k: nat, length: nat)
    requires n < Pow2(k * length)
    ensures Value(Digits(n, Pow2(k), length), Pow2(k)) == n
    decreases length
  {
    hide Pow2;
    if length == 0 {
      NoBits(k);
    } else {
      var base := Pow2(k);
      assert k * (length - 1) + k == k * length;
      QuotientFits(n, k, length - 1);
      ValueOfDigits(n / base, k, length - 1);
      ValueOfSnoc(Digits(n / base, base, length - 1), n % base, base);
      Rebuild(n, base);
    }
  }

  lemma NoBits(k: nat)
    ensures Pow2(k * 0) == 1
  {
  }

  lemma Rebuild(n: int, d: nat)
    requires d > 0
    ensures (n / d) * d + n % d == n
    ensures (n / d) * d == n <==> n % d == 0
  {
  }

  lemma QuotientIsNat(n: nat, d: nat)
    requires d > 0
    ensures n / d >= 0
  {
    assert n == d * (n / d) + n % d;
    if n / d < 0 {
      Multiply(d, n / d, -1);
      assert false;
    }
  }

  lemma Constants()
    ensures Pow2(0) == 1 && Pow2(3) == 8 && Pow2(5) == 32 && Pow2(8) == 256
  {
    Pow2Sum(3, 2);
    Pow2Sum(5, 3);
  }

  lemma ValueIsInjective(s: seq<int>, t: seq<int>, base: nat)
    requires base > 0 && AreDigits(s, base) && AreDigits(t, base) && |s| == |t| && Value(s, base) == Value(t, base)
    ensures s == t
  {
    DigitsOfValue(s, base);
    DigitsOfValue(t, base);
  }

  // ---------- The loops ----------

  // n is m followed by the low bits of the accumulator.
  ghost predicate Pending(n: int, m: int, bits: nat, value: Word) {
    n == m * Pow2(bits) + value % Pow2(bits)
  }

  lemma TakeDigit(n: int, m: int, bits: nat, value: Word, k: nat, d: nat)
    requires Pending(n, m, bits, value) && bits + k <= 32 && d < Pow2(k)
    ensures 0 <= ShiftIn(value, k, d) < WORD
    ensures Pending(n * Pow2(k) + d, m, bits + k, ShiftIn(value, k, d))
  {
    hide Pow2;
    ShiftInKeepsLowBits(value, bits, k, d);
    Pow2Sum(bits, k);
    Distribute(m, Pow2(bits), value % Pow2(bits), Pow2(k));
  }

  lemma GiveDigit(n: int, m: int, bits: nat, value: Word, k: nat)
    requires Pending(n, m, bits + k, value)
    ensures 0 <= Extract(value, bits, k) < Pow2(k)
    ensures Pending(n, m * Pow2(k) + Extract(value, bits, k), bits, value)
  {
    hide Pow2;
    ExtractSplitsLowBits(value, bits, k);
    hide Extract;
    Pow2Sum(bits, k);
    Distribute(m, Pow2(k), Extract(value, bits, k), Pow2(bits));
  }

  lemma FillLastSymbol(n: int, m: int, bits: nat, value: Word)
    requires Pending(n, m, bits, value) && bits < 5
    ensures 0 <= ShiftIn(value, 5 - bits, 0) < WORD
    ensures m * 32 + ShiftIn(value, 5 - bits, 0) % 32 == n * Pow2(5 - bits)
  {
    Constants();
    var k := 5 - bits;
    ShiftInKeepsLowBits(value, bits, k, 0);
    Pow2Sum(bits, k);
    Distribute(m, Pow2(bits), value % Pow2(bits), Pow2(k));
    hide Pow2, ShiftIn;
    assert Pow2(bits + k) == 32;
    assert ShiftIn(value, k, 0) % 32 == (value % Pow2(bits)) * Pow2(k);
  }

  method Base32Encode(bytes: seq<Byte>) returns (out: string)
    ensures out == Encoded(bytes)
  {
    hide Pow2, Digits, ShiftIn, Extract, Pending, Value, AreDigits, TextOf;
    Constants();
    var bits: nat, value: Word := 0, 0;
    out := "";
    ghost var symbols: seq<int> := [];
    StartEmpty(bytes);
    for i := 0 to |bytes|
      invariant bits < 5 && 8 * i == 5 * |symbols| + bits
      invariant AreDigits(symbols, 32) && out == TextOf(symbols)
      invariant Pending(Value(bytes[..i], 256), Value(symbols, 32), bits, value)
    {
      assert bytes[..i + 1] == bytes[..i] + [bytes[i]];
      ValueOfSnoc(bytes[..i], bytes[i], 256);
      TakeDigit(Value(bytes[..i], 256), Value(symbols, 32), bits, value, 8, bytes[i]);
      value := ShiftIn(value, 8, bytes[i]);
      bits := bits + 8;
      while bits >= 5
        invariant bits < 13 && 8 * (i + 1) == 5 * |symbols| + bits
        invariant AreDigits(symbols, 32) && out == TextOf(symbols)
        invariant Pending(Value(bytes[..i + 1], 256), Value(symbols, 32), bits, value)
      {
        GiveDigit(Value(bytes[..i + 1], 256), Value(symbols, 32), bits - 5, value, 5);
        var s: Symbol := Extract(value, bits - 5, 5);
        AppendSymbol(symbols, s);
        out := out + [CharOf(s)];
        symbols := symbols + [s];
        bits := bits - 5;
      }
    }
    assert bytes[..|bytes|] == bytes;
    out := FlushBits(bytes, out, symbols, bits, value);
  }

  // What is left fills one more symbol.
  method FlushBits(ghost bytes: seq<Byte>, text: string, ghost symbols: seq<int>, bits: nat, value: Word)
    returns (out: string)
    requires bits < 5 && 8 * |bytes| == 5 * |symbols| + bits && AreDigits(symbols, 32) && text == TextOf(symbols)
    requires Pending(Value(bytes, 256), Value(symbols, 32), bits, value)
    ensures out == Encoded(bytes)
  {
    hide Pow2, Digits, ShiftIn, Extract, Pending, Value, AreDigits, TextOf;
    Constants();
    FillLastSymbol(Value(bytes, 256), Value(symbols, 32), bits, value);
    out := text;
    ghost var all := symbols;
    if bits > 0 {
      var s: Symbol := ShiftIn(value, 5 - bits, 0) % 32;
      AppendSymbol(symbols, s);
      out := out + [CharOf(s)];
      all := symbols + [s];
    } else {
      NothingPending(Value(bytes, 256), Value(symbols, 32), value);
    }
    DigitsOfValue(all, 32);
  }

  lemma AppendSymbol(symbols: seq<int>, s: Symbol)
    requires AreDigits(symbols, 32)
    ensures AreDigits(symbols + [s], 32) && TextOf(symbols + [s]) == TextOf(symbols) + [CharOf(s)]
    ensures Value(symbols + [s], 32) == Value(symbols, 32) * 32 + s
  {
    ValueOfSnoc(symbols, s, 32);
  }

  lemma AppendByte(bytes: seq<int>, b: Byte)
    requires AreDigits(bytes, 256)
    ensures AreDigits(bytes + [b], 256)
    ensures Value(bytes + [b], 256) == Value(bytes, 256) * 256 + b
  {
    ValueOfSnoc(bytes, b, 256);
  }

  lemma StartEmpty(digits: seq<int>)
    ensures AreDigits([], 32) && AreDigits([], 256) && TextOf([]) == ""
    ensures Pending(Value(digits[..0], 256), Value([], 32), 0, 0)
    ensures Pending(Value([], 32), Value([], 256), 0, 0)
  {
  }

  lemma NothingPending(n: int, m: int, value: Word)
    requires Pending(n, m, 0, value)
    ensures n == m && Pow2(0) == 1
  {
  }

  lemma {:induction false} InvalidPrefixInvalidText(text: string, i: nat)
    requires i <= |text| && SymbolsOf(text[..i]) == None
    ensures SymbolsOf(text) == None
    decreases |text| - i
  {
    if i < |text| {
      assert text[..i + 1][..i] == text[..i];
      InvalidPrefixInvalidText(text, i + 1);
    } else {
      assert text[..i] == text;
    }
  }

  lemma NextSymbol(text: string, i: nat)
    requires i < |text|
    ensures SymbolOf(text[i]) == None ==> SymbolsOf(text[..i + 1]) == None
    ensures SymbolOf(text[i]).Some? ==> SymbolOf(text[i]).value < 32
    ensures SymbolOf(text[i]).Some? && SymbolsOf(text[..i]).Some? ==>
      SymbolsOf(text[..i + 1]) == Some(SymbolsOf(text[..i]).value + [SymbolOf(text[i]).value])
  {
    assert text[..i + 1][..i] == text[..i];
    IndexInFinds(text[i], 0);
  }

  // One more symbol is five more pending bits, and a byte once there are eight.
  lemma DecodeStep(symbols: seq<int>, out: seq<int>, bits: nat, value: Word, d: nat)
    requires AreDigits(out, 256) && Pending(Value(symbols, 32), Value(out, 256), bits, value) && bits < 8 && d < 32
    ensures 0 <= ShiftIn(value, 5, d) < WORD
    ensures var v := ShiftIn(value, 5, d);
      if bits + 5 >= 8 then
        var b := Extract(v, bits - 3, 8);
        && 0 <= b < 256 && AreDigits(out + [b], 256)
        && Pending(Value(symbols + [d], 32), Value(out + [b], 256), bits - 3, v)
      else Pending(Value(symbols + [d], 32), Value(out, 256), bits + 5, v)
  {
    hide Pow2, Digits, ShiftIn, Extract, Pending, Value, AreDigits;
    Constants();
    ValueOfSnoc(symbols, d, 32);
    TakeDigit(Value(symbols, 32), Value(out, 256), bits, value, 5, d);
    if bits + 5 >= 8 {
      var v: Word := ShiftIn(value, 5, d);
      GiveDigit(Value(symbols + [d], 32), Value(out, 256), bits - 3, v, 8);
      AppendByte(out, Extract(v, bits - 3, 8));
    }
  }

  method Base32Decode(text: string) returns (r: Result<seq<int>, CodeError>)
    ensures r == Decoded(text)
  {
    hide Pow2, Digits, ShiftIn, Extract, Pending, Value, SymbolsOf, SymbolOf, AreDigits;
    Constants();
    var bits: nat, value: Word := 0, 0;
    var out: seq<int> := [];
    ghost var symbols: seq<int> := [];
    StartEmpty([]);
    NoSymbols(text);
    for i := 0 to |text|
      invariant SymbolsOf(text[..i]) == Some(symbols)
      invariant |symbols| == i && bits < 8 && 5 * i == 8 * |out| + bits
      invariant AreDigits(out, 256)
      invariant Pending(Value(symbols, 32), Value(out, 256), bits, value)
    {
      NextSymbol(text, i);
      var index := SymbolOf(text[i]);
      if index == None {
        InvalidPrefixInvalidText(text, i + 1);
        return Err(BadRecoveryCode("invalid base32 character"));
      }
      DecodeStep(symbols, out, bits, value, index.value);
      symbols := symbols + [index.value];
      value := ShiftIn(value, 5, index.value);
      bits := bits + 5;
      if bits >= 8 {
        out := out + [Extract(value, bits - 8, 8)];
        bits := bits - 8;
      }
    }
    assert text[..|text|] == text;
    DecodingEnds(text, symbols, out, bits, value);
    return Ok(out);
  }

  lemma DecodingEnds(text: string, symbols: seq<int>, out: seq<int>, bits: nat, value: Word)
    requires SymbolsOf(text) == Some(symbols) && |symbols| == |text|
    requires 5 * |text| == 8 * |out| + bits && bits < 8 && AreDigits(out, 256)
    requires Pending(Value(symbols, 32), Value(out, 256), bits, value)
    ensures Decoded(text) == Ok(out)
  {
    hide *;
    DecodedAs(text, symbols, |out|, bits);
    DropPending(Value(symbols, 32), Value(out, 256), bits, value);
    DigitsOfValue(out, 256);
  }

  lemma DecodedAs(text: string, symbols: seq<int>, length: nat, bits: nat)
    requires SymbolsOf(text) == Some(symbols) && 5 * |symbols| == 8 * length + bits && bits < 8
    ensures Decoded(text) == Ok(Digits(Value(symbols, 32) / Pow2(bits), 256, length))
  {
    hide Pow2, Digits, Value, SymbolsOf;
    WholeBytes(|symbols|, length, bits);
  }

  lemma WholeBytes(n: nat, length: nat, bits: nat)
    requires 5 * n == 8 * length + bits && bits < 8
    ensures 5 * n / 8 == length && 5 * n - 8 * length == bits
  {
  }

  lemma NoSymbols(text: string)
    ensures SymbolsOf(text[..0]) == Some([])
  {
  }

  lemma DropPending(n: int, m: int, bits: nat, value: Word)
    requires Pending(n, m, bits, value)
    ensures n / Pow2(bits) == m
  {
    hide Pow2;
    Divide(n, Pow2(bits), m, value % Pow2(bits));
  }

  // ---------- Round trips ----------

  lemma ValueOfEncoding(bytes: seq<int>)
    requires AreDigits(bytes, 256)
    ensures var length := Ceil5(8 * |bytes|);
      && |EncodedSymbols(bytes)| == length && AreDigits(EncodedSymbols(bytes), 32)
      && Value(EncodedSymbols(bytes), 32) == Value(bytes, 256) * Pow2(5 * length - 8 * |bytes|)
  {
    Constants();
    hide Pow2, Digits;
    var length := Ceil5(8 * |bytes|);
    var pad := 5 * length - 8 * |bytes|;
    ValueFits(bytes, 8);
    Pow2Sum(8 * |bytes|, pad);
    Scale(Value(bytes, 256), Pow2(8 * |bytes|), Pow2(pad));
    DigitsAreDigits(Value(bytes, 256) * Pow2(pad), 32, length);
    ValueOfDigits(Value(bytes, 256) * Pow2(pad), 5, length);
  }

  /** Decoding undoes encoding, for every byte string. */
  lemma RoundTrip(bytes: seq<int>)
    requires AreDigits(bytes, 256)
    ensures Decoded(Encoded(bytes)) == Ok(bytes)
  {
    ValueOfEncoding(bytes);
    var symbols := EncodedSymbols(bytes);
    SymbolsOfText(symbols);
    hide Pow2, Digits;
    var pad := 5 * |symbols| - 8 * |bytes|;
    assert 5 * |symbols| / 8 == |bytes|;
    Divide(Value(symbols, 32), Pow2(pad), Value(bytes, 256), 0);
    DigitsOfValue(bytes, 256);
  }

  lemma ValueOfDecoding(symbols: seq<int>)
    requires AreDigits(symbols, 32)
    ensures var length := 5 * |symbols| / 8;
      && |DecodedBytes(symbols)| == length && AreDigits(DecodedBytes(symbols), 256)
      && Value(DecodedBytes(symbols), 256) == Value(symbols, 32) / Pow2(5 * |symbols| - 8 * length)
  {
    Constants();
    hide Pow2, Digits;
    var length := 5 * |symbols| / 8;
    var rest := 5 * |symbols| - 8 * length;
    ValueFits(symbols, 5);
    Pow2Sum(8 * length, rest);
    var v := Value(symbols, 32);
    QuotientBelow(v, Pow2(rest), Pow2(8 * length));
    DigitsAreDigits(v / Pow2(rest), 256, length);
    ValueOfDigits(v / Pow2(rest), 8, length);
  }

  // The last symbol ends in zero bits and no symbol is superfluous.
  predicate Canonical(symbols: seq<int>) {
    var rest := 5 * |symbols| % 8;
    rest < 5 && Value(symbols, 32) % Pow2(rest) == 0
  }

  lemma LengthOfReencoding(m: nat)
    ensures Ceil5(8 * (5 * m / 8)) == m <==> 5 * m % 8 < 5
    ensures 5 * m - 8 * (5 * m / 8) == 5 * m % 8
  {
  }

  lemma ReencodedSymbolsIff(symbols: seq<int>)
    requires AreDigits(symbols, 32)
    ensures EncodedSymbols(DecodedBytes(symbols)) == symbols <==> Canonical(symbols)
  {
    ValueOfDecoding(symbols);
    var bytes := DecodedBytes(symbols);
    ValueOfEncoding(bytes);
    LengthOfReencoding(|symbols|);
    hide Pow2, EncodedSymbols, DecodedBytes, Value, Ceil5, AreDigits;
    var rest := 5 * |symbols| % 8;
    Rebuild(Value(symbols, 32), Pow2(rest));
    if Canonical(symbols) {
      ValueIsInjective(EncodedSymbols(bytes), symbols, 32);
    }
  }

  /** A valid text is what its own bytes encode to exactly when it is canonical. */
  lemma ReencodingIff(text: string)
    requires SymbolsOf(text).Some?
    ensures Encoded(DecodedBytes(SymbolsOf(text).value)) == text <==> Canonical(SymbolsOf(text).value)
  {
    var symbols := SymbolsOf(text).value;
    SymbolsAreDigits(text);
    ReencodedSymbolsIff(symbols);
    ValueOfDecoding(symbols);
    ValueOfEncoding(DecodedBytes(symbols));
    SymbolsOfText(EncodedSymbols(DecodedBytes(symbols)));
    hide Pow2, EncodedSymbols, DecodedBytes, Value, SymbolsOf;
  }

  /** The vector of section 10 of RFC 4648, without padding. */
  lemma FoobarIsMzxw6ytboi()
    ensures Encoded([102, 111, 111, 98, 97, 114]) == "MZXW6YTBOI"
  {
    FoobarValue();
    FoobarSymbols();
    hide Value, Digits;
    assert Pow2(2) == 4;
    assert EncodedSymbols([102, 111, 111, 98, 97, 114]) == [12, 25, 23, 22, 30, 24, 19, 1, 14, 8];
  }

  lemma FoobarValue()
    ensures Value([102, 111, 111, 98, 97, 114], 256) == 112628796121458
  {
    assert Value([], 256) == 0;
    ValueOfSnoc([], 102, 256);
    assert [] + [102] == [102];
    ValueOfSnoc([102], 111, 256);
    assert [102] + [111] == [102, 111];
    ValueOfSnoc([102, 111], 111, 256);
    assert [102, 111] + [111] == [102, 111, 111];
    ValueOfSnoc([102, 111, 111], 98, 256);
    assert [102, 111, 111] + [98] == [102, 111, 111, 98];
    ValueOfSnoc([102, 111, 111, 98], 97, 256);
    assert [102, 111, 111, 98] + [97] == [102, 111, 111, 98, 97];
    ValueOfSnoc([102, 111, 111, 98, 97], 114, 256);
    assert [102, 111, 111, 98, 97] + [114] == [102, 111, 111, 98, 97, 114];
  }

  lemma FoobarSymbols()
    ensures Digits(450515184485832, 32, 10) == [12, 25, 23, 22, 30, 24, 19, 1, 14, 8]
  {
    assert Digits(0, 32, 0) == [];
    assert Digits(12, 32, 1) == [12];
    assert Digits(409, 32, 2) == [12, 25];
    assert Digits(13111, 32, 3) == [12, 25, 23];
    assert Digits(419574, 32, 4) == [12, 25, 23, 22];
    assert Digits(13426398, 32, 5) == [12, 25, 23, 22, 30];
    assert Digits(429644760, 32, 6) == [12, 25, 23, 22, 30, 24];
    assert Digits(13748632339, 32, 7) == [12, 25, 23, 22, 30, 24, 19];
    assert Digits(439956234849, 32, 8) == [12, 25, 23, 22, 30, 24, 19, 1];
    assert Digits(14078599515182, 32, 9) == [12, 25, 23, 22, 30, 24, 19, 1, 14];
    assert Digits(450515184485832, 32, 10) == [12, 25, 23, 22, 30, 24, 19, 1, 14, 8];
  }
}
