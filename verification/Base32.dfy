/** Unpadded base32 over a 32-bit accumulator (brain-sync/src/base32.ts); sections 3.2 and 6 of RFC 4648.
 *
 *  A byte string and a symbol string are read as numbers, most significant digit first.  Encoding
 *  multiplies by the power of two that fills the last symbol; decoding drops what does not fill a
 *  byte.  The accumulator wraps at 32 bits in both loops: only its low bits are ever used.
 */
module Base32 {
  import opened Prelude

  type Byte = n: int | 0 <= n < 256
  type Symbol = n: int | 0 <= n < 32
  type Word = n: int | 0 <= n < WORD

  const WORD := 0x1_0000_0000
  const ALPHABET := "ABCDEFGHIJKLMNOPQRSTUVWXYZ234567"

  // ---------- Numbers and their digits ----------

  function Pow2(n: nat): (r: nat)
    ensures r > 0
  {
    if n == 0 then 1 else 2 * Pow2(n - 1)
  }

  lemma {:induction false} Pow2Sum(n: nat, k: nat)
    ensures Pow2(n + k) == Pow2(n) * Pow2(k)
  {
    if n > 0 {
      Pow2Sum(n - 1, k);
      assert Pow2(n + k) == 2 * (Pow2(n - 1) * Pow2(k));
    }
  }

  lemma Multiply(c: nat, a: int, b: int)
    requires a <= b
    ensures c * a <= c * b
  {
  }

  // A number in the form q * d + r has q as quotient and r as remainder.
  lemma Divide(n: int, d: nat, q: int, r: int)
    requires 0 <= r < d && n == q * d + r
    ensures n / d == q && n % d == r
  {
    assert n == d * (n / d) + n % d;
    if n / d < q {
      Multiply(d, n / d + 1, q);
      assert false;
    } else if n / d > q {
      Multiply(d, q + 1, n / d);
      assert false;
    }
  }

  lemma Distribute(v: int, p: int, r: int, k: int)
    ensures (v * p + r) * k == v * (p * k) + r * k
  {
  }

  lemma Scale(v: int, bound: int, k: nat)
    requires 0 <= v < bound && k > 0
    ensures 0 <= v * k < bound * k
  {
    Multiply(k, 0, v);
    Multiply(k, v + 1, bound);
  }

  lemma DigitFits(v: int, bound: int, k: nat, d: int)
    requires 0 <= v < bound && 0 <= d < k
    ensures 0 <= v * k + d < bound * k
  {
    Multiply(k, 0, v);
    Multiply(k, v + 1, bound);
    assert k * (v + 1) == v * k + k;
    assert k * bound == bound * k;
  }

  lemma RemainderOfRemainder(v: int, b: nat, c: nat)
    requires b > 0 && c > 0 && b * c > 0
    ensures (v % (b * c)) % b == v % b
  {
    var q, m := v / (b * c), v % (b * c);
    var q2, r := m / b, m % b;
    assert v == (b * c) * q + m && m == b * q2 + r;
    assert (b * c) * q == (c * q) * b;
    assert v == (c * q + q2) * b + r;
    Divide(v, b, c * q + q2, r);
  }

  function Value(digits: seq<int>, base: nat): int {
    if digits == [] then 0 else Value(digits[..|digits| - 1], base) * base + digits[|digits| - 1]
  }

  function Digits(n: int, base: nat, length: nat): seq<int>
    requires base > 0
    decreases length
  {
    if length == 0 then [] else Digits(n / base, base, length - 1) + [n % base]
  }

  predicate AreDigits(s: seq<int>, base: nat) {
    forall i :: 0 <= i < |s| ==> 0 <= s[i] < base
  }

  lemma {:induction false} DigitsOfValue(s: seq<int>, base: nat)
    requires base > 0 && AreDigits(s, base)
    ensures Value(s, base) >= 0 && Digits(Value(s, base), base, |s|) == s
  {
    if s != [] {
      var most, last := s[..|s| - 1], s[|s| - 1];
      DigitsOfValue(most, base);
      Divide(Value(s, base), base, Value(most, base), last);
      assert most + [last] == s;
    }
  }

  lemma {:induction false} DigitsAreDigits(n: int, base: nat, length: nat)
    requires base == 32 || base == 256
    ensures |Digits(n, base, length)| == length && AreDigits(Digits(n, base, length), base)
    decreases length
  {
    if length > 0 {
      DigitsAreDigits(n / base, base, length - 1);
    }
  }

  lemma ValueOfSnoc(s: seq<int>, d: int, base: nat)
    ensures Value(s + [d], base) == Value(s, base) * base + d
  {
    assert (s + [d])[..|s|] == s;
  }

  // ---------- Symbols and characters ----------

  function CharOf(s: Symbol): char {
    ALPHABET[s]
  }

  function IndexIn(c: char, n: nat): Option<nat>
    requires n <= 32
    decreases 32 - n
  {
    if n == 32 then None else if ALPHABET[n] == c then Some(n) else IndexIn(c, n + 1)
  }

  function SymbolOf(c: char): Option<nat> {
    IndexIn(c, 0)
  }

  lemma {:induction false} IndexInFinds(c: char, n: nat)
    requires n <= 32
    ensures match IndexIn(c, n)
      case Some(k) => n <= k < 32 && ALPHABET[k] == c
      case None => forall k :: n <= k < 32 ==> ALPHABET[k] != c
    decreases 32 - n
  {
    if n < 32 && ALPHABET[n] != c {
      IndexInFinds(c, n + 1);
    }
  }

  lemma AlphabetIsInjective(j: Symbol, k: Symbol)
    requires ALPHABET[j] == ALPHABET[k]
    ensures j == k
  {
    assert forall n: Symbol :: ALPHABET[n] as int == if n < 26 then 65 + n else 24 + n;
  }

  lemma SymbolOfChar(s: Symbol)
    ensures SymbolOf(CharOf(s)) == Some(s)
  {
    IndexInFinds(CharOf(s), 0);
    var k := SymbolOf(CharOf(s)).value;
    AlphabetIsInjective(k, s);
  }

  function SymbolsOf(text: string): Option<seq<int>> {
    if text == "" then Some([])
    else
      var most := SymbolsOf(text[..|text| - 1]);
      var last := SymbolOf(text[|text| - 1]);
      if most.Some? && last.Some? then Some(most.value + [last.value]) else None
  }

  function TextOf(symbols: seq<int>): string
    requires AreDigits(symbols, 32)
  {
    seq(|symbols|, i requires 0 <= i < |symbols| => CharOf(symbols[i]))
  }

  lemma {:induction false} SymbolsOfText(symbols: seq<int>)
    requires AreDigits(symbols, 32)
    ensures SymbolsOf(TextOf(symbols)) == Some(symbols)
  {
    if symbols != [] {
      var n := |symbols| - 1;
      SymbolsOfText(symbols[..n]);
      SymbolOfChar(symbols[n]);
      assert TextOf(symbols)[..n] == TextOf(symbols[..n]);
      assert symbols == symbols[..n] + [symbols[n]];
    }
  }

  lemma {:induction false} SymbolsAreDigits(text: string)
    requires SymbolsOf(text).Some?
    ensures |SymbolsOf(text).value| == |text| && AreDigits(SymbolsOf(text).value, 32)
    ensures TextOf(SymbolsOf(text).value) == text
  {
    if text != "" {
      var n := |text| - 1;
      SymbolsAreDigits(text[..n]);
      IndexInFinds(text[n], 0);
      assert text == text[..n] + [text[n]];
    }
  }

  // ---------- What the codec computes ----------

  function Ceil5(bits: nat): nat {
    (bits + 4) / 5
  }

  // The symbols of the byte string, its last symbol filled up with zero bits.
  function EncodedSymbols(bytes: seq<int>): seq<int> {
    var length := Ceil5(8 * |bytes|);
    Digits(Value(bytes, 256) * Pow2(5 * length - 8 * |bytes|), 32, length)
  }

  function Encoded(bytes: seq<int>): string {
    var symbols := EncodedSymbols(bytes);
    DigitsAreDigits(Value(bytes, 256) * Pow2(5 * Ceil5(8 * |bytes|) - 8 * |bytes|), 32, Ceil5(8 * |bytes|));
    TextOf(symbols)
  }

  datatype CodeError = BadRecoveryCode(reason: string)

  // The whole bytes of the symbols; fewer than eight bits are left over and dropped.
  function DecodedBytes(symbols: seq<int>): seq<int> {
    var length := 5 * |symbols| / 8;
    Digits(Value(symbols, 32) / Pow2(5 * |symbols| - 8 * length), 256, length)
  }

  function Decoded(text: string): Result<seq<int>, CodeError> {
    match SymbolsOf(text)
    case None => Err(BadRecoveryCode("invalid base32 character"))
    case Some(symbols) => Ok(DecodedBytes(symbols))
  }

  // ---------- The 32-bit accumulator ----------

  // (value << k) | low, as an unsigned 32-bit pattern.
  function ShiftIn(value: Word, k: nat, low: int): int {
    (value * Pow2(k)) % WORD + low
  }

  // (value >>> k) & (2^m - 1)
  function Extract(value: Word, k: nat, m: nat): int {
    value / Pow2(k) % Pow2(m)
  }

  // The shifted word is a multiple of 2^k, so filling in the low digit carries nowhere.
  lemma ShiftInFits(value: Word, k: nat, low: nat)
    requires k <= 32 && low < Pow2(k)
    ensures ShiftIn(value, k, low) == (value % Pow2(32 - k)) * Pow2(k) + low
    ensures 0 <= ShiftIn(value, k, low) < WORD
  {
    hide Pow2;
    var K, C := Pow2(k), Pow2(32 - k);
    Pow2Sum(32 - k, k);
    WordIsPow2();
    var t, m := value / C, value % C;
    assert value == t * C + m;
    Distribute(t, C, m, K);
    Scale(m, C, K);
    Divide(value * K, C * K, t, m * K);
    DigitFits(m, C, K, low);
  }

  // The low bits after a shift: the old low bits and the new digit; what overflows lies above them.
  lemma ShiftInKeepsLowBits(value: Word, bits: nat, k: nat, low: nat)
    requires bits + k <= 32 && low < Pow2(k)
    ensures 0 <= ShiftIn(value, k, low) < WORD
    ensures ShiftIn(value, k, low) % Pow2(bits + k) == (value % Pow2(bits)) * Pow2(k) + low
  {
    hide Pow2;
    ShiftInFits(value, k, low);
    hide ShiftIn;
    var B, K, C := Pow2(bits), Pow2(k), Pow2(32 - bits - k);
    Pow2Sum(bits, k);
    Pow2Sum(bits, 32 - bits - k);
    RemainderOfRemainder(value, B, C);
    var m := value % (B * C);
    var q, r := m / B, m % B;
    assert m == q * B + r;
    Distribute(q, B, r, K);
    DigitFits(r, B, K, low);
    Divide(m * K + low, B * K, q, r * K + low);
  }

  lemma WordIsPow2()
    ensures Pow2(32) == WORD
  {
    assert Pow2(4) == 16;
    Pow2Sum(4, 4);
    Pow2Sum(8, 8);
    Pow2Sum(16, 16);
    hide Pow2;
    assert Pow2(8) == 256 && Pow2(16) == 65536;
  }

  // Taking the top digit off the low bits.
  lemma ExtractSplitsLowBits(value: Word, bits: nat, k: nat)
    ensures 0 <= Extract(value, bits, k) < Pow2(k)
    ensures value % Pow2(bits + k) == Extract(value, bits, k) * Pow2(bits) + value % Pow2(bits)
  {
    hide Pow2;
    var B, K := Pow2(bits), Pow2(k);
    Pow2Sum(bits, k);
    var q, r := value / B, value % B;
    var high, d := q / K, q % K;
    assert value == q * B + r && q == high * K + d;
    Distribute(high, K, d, B);
    DigitFits(d, K, B, r);
    Commute(high, B, K);
    Divide(value, B * K, high, d * B + r);
  }

  lemma Commute(a: int, b: int, c: int)
    ensures a * (b * c) == a * (c * b) && b * c == c * b
  {
  }
}
