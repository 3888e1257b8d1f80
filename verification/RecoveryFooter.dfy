/** The recovery footer that states the size it is part of (context-gate/src/record-output.ts, recovery-footer.ts,
    admission-guard.ts). */
module RecoveryFooter {
  import opened Prelude
  import CacheModel
  import CacheNamespace

  datatype FooterInput = FooterInput(rawBytes: nat, chunkSetId: string, chunkCount: nat, looksTruncated: bool)

  // ---------- The footer ----------

  function TokensFromBytes(bytes: nat): nat {
    (bytes + 3) / 4
  }

  // To the nearest tenth, a half upwards.
  function Tenths(part: nat, whole: nat): nat
    requires whole > 0
  {
    (2000 * part + whole) / (2 * whole)
  }

  function OneDecimal(tenths: nat): string {
    CacheNamespace.Decimal(tenths / 10) + "." + CacheNamespace.Decimal(tenths % 10)
  }

  // The share saved, which is negative when more is returned than was given.
  function Percent(rawTokens: nat, returnedTokens: nat): string {
    if rawTokens == 0 then "0.0"
    else if returnedTokens <= rawTokens then OneDecimal(Tenths(rawTokens - returnedTokens, rawTokens))
    else "-" + OneDecimal(Tenths(returnedTokens - rawTokens, rawTokens))
  }

  function Expand(i: FooterInput): string {
    if i.chunkCount > 1 then
      "\U{2014}" + " stored in " + CacheNamespace.Decimal(i.chunkCount) + " chunks of ~40 lines each;" + " fetch any with: "
      + "mega output chunk \"" + i.chunkSetId + "\" \"<i>\" (i = 0.." + CacheNamespace.Decimal(i.chunkCount - 1) + ")"
    else
      "\U{2014}" + " run: mega output chunk \"" + i.chunkSetId + "\" \"0\""
  }

  function Recovery(i: FooterInput): string {
    (if i.looksTruncated then
       "NOTE: upstream output" + " appears truncated, "
       + (if i.chunkCount > 1 then "recovered chunks are" else "recovered chunk is")
       + " PARTIAL, not complete "
     else "Full output recoverable ")
    + Expand(i) + " (or MCP proxy_expand_chunk" + " if connected)"
  }

  function Lead(i: FooterInput): string {
    "\n\n[Mega Saver: compressed " + CacheNamespace.Decimal(i.rawBytes) + "\U{2192}"
  }

  function Middle(i: FooterInput): string {
    " B (~" + CacheNamespace.Decimal(TokensFromBytes(i.rawBytes)) + "\U{2192}"
  }

  function Tail(i: FooterInput): string {
    "%). " + Recovery(i) + ".]"
  }

  function Footer(i: FooterInput, returned: nat): string {
    var tokens := TokensFromBytes(returned);
    Lead(i) + CacheNamespace.Decimal(returned) + Middle(i) + CacheNamespace.Decimal(tokens) + " tokens, "
    + Percent(TokensFromBytes(i.rawBytes), tokens) + Tail(i)
  }

  // ---------- Its length ----------

  function Digits(n: nat): nat {
    |CacheNamespace.Decimal(n)|
  }

  // The digits of the size, of its tokens, and the width of the percentage.
  function Widths(i: FooterInput, n: nat): nat {
    Digits(n) + Digits(TokensFromBytes(n)) + |Percent(TokensFromBytes(i.rawBytes), TokensFromBytes(n))|
  }

  function FixedBytes(i: FooterInput): nat {
    CacheModel.ByteLength(Lead(i)) + CacheModel.ByteLength(Middle(i)) + CacheModel.ByteLength(" tokens, ")
    + CacheModel.ByteLength(Tail(i))
  }

  predicate IsAscii(s: string) {
    forall k :: 0 <= k < |s| ==> s[k] < '\U{80}'
  }

  lemma {:induction false} AsciiBytes(s: string)
    requires IsAscii(s)
    ensures CacheModel.ByteLength(s) == |s|
  {
    if s != "" {
      AsciiBytes(s[..|s| - 1]);
    }
  }

  lemma DecimalIsAscii(n: nat)
    ensures IsAscii(CacheNamespace.Decimal(n)) && Digits(n) > 0
  {
    CacheNamespace.DecimalIsDigits(n);
  }

  lemma PercentIsAscii(rawTokens: nat, returnedTokens: nat)
    ensures IsAscii(Percent(rawTokens, returnedTokens)) && |Percent(rawTokens, returnedTokens)| >= 3
  {
    hide Tenths, CacheNamespace.Decimal;
    if rawTokens > 0 {
      var part := if returnedTokens <= rawTokens then rawTokens - returnedTokens else returnedTokens - rawTokens;
      DecimalIsAscii(Tenths(part, rawTokens) / 10);
      DecimalIsAscii(Tenths(part, rawTokens) % 10);
    }
  }

  /** Only three numbers change the footer's length. */
  lemma FooterLength(i: FooterInput, n: nat)
    ensures CacheModel.ByteLength(Footer(i, n)) == FixedBytes(i) + Widths(i, n)
  {
    var tokens := TokensFromBytes(n);
    var percent := Percent(TokensFromBytes(i.rawBytes), tokens);
    DecimalIsAscii(n);
    DecimalIsAscii(tokens);
    PercentIsAscii(TokensFromBytes(i.rawBytes), tokens);
    AsciiBytes(CacheNamespace.Decimal(n));
    AsciiBytes(CacheNamespace.Decimal(tokens));
    AsciiBytes(percent);
    hide CacheModel.ByteLength, CacheNamespace.Decimal, TokensFromBytes, Percent, Lead, Middle, Tail, IsAscii;
    var a := Lead(i) + CacheNamespace.Decimal(n);
    var b := a + Middle(i);
    var c := b + CacheNamespace.Decimal(tokens);
    var d := c + " tokens, ";
    CacheModel.ByteLengthSum(Lead(i), CacheNamespace.Decimal(n));
    CacheModel.ByteLengthSum(a, Middle(i));
    CacheModel.ByteLengthSum(b, CacheNamespace.Decimal(tokens));
    CacheModel.ByteLengthSum(c, " tokens, ");
    CacheModel.ByteLengthSum(d, percent);
    CacheModel.ByteLengthSum(d + percent, Tail(i));
  }

  // ---------- The two corrections ----------

  // The size with a footer that states `shown`.
  function Delivered(i: FooterInput, textBytes: nat, shown: nat): nat {
    textBytes + FixedBytes(i) + Widths(i, shown)
  }

  // The size stated in the end: that of the text with a first footer, or with a second one.
  function Shown(i: FooterInput, textBytes: nat): nat {
    var once := Delivered(i, textBytes, textBytes);
    if Widths(i, once) == Widths(i, textBytes) then once else Delivered(i, textBytes, once)
  }

  // The numbers keep their widths from the text to the first stated size, or from that to the second.
  predicate WidthsSettle(i: FooterInput, textBytes: nat) {
    var once := Delivered(i, textBytes, textBytes);
    Widths(i, once) == Widths(i, textBytes) || Widths(i, Delivered(i, textBytes, once)) == Widths(i, once)
  }

  // What is worth delivering: at least 256 bytes and 15 percent are saved.
  predicate Admits(rawBytes: nat, returnedBytes: nat) {
    returnedBytes < rawBytes && rawBytes - returnedBytes >= 256 && 100 * (rawBytes - returnedBytes) >= 15 * rawBytes
  }

  /** The footer states the delivered size exactly when the widths settle; in a delivered output it is never off by
      more than one byte. */
  method SizeFooter(i: FooterInput, textBytes: nat) returns (footer: string)
    ensures footer == Footer(i, Shown(i, textBytes))
    ensures var delivered := textBytes + CacheModel.ByteLength(footer);
      && (Shown(i, textBytes) == delivered <==> WidthsSettle(i, textBytes))
      && (Admits(i.rawBytes, delivered) ==> -1 <= delivered - Shown(i, textBytes) <= 1)
  {
    hide Footer, CacheModel.ByteLength, FixedBytes, Widths;
    footer := Footer(i, textBytes);
    FooterLength(i, textBytes);
    ghost var once := Delivered(i, textBytes, textBytes);
    FooterLength(i, once);
    FooterLength(i, Delivered(i, textBytes, once));
    for k := 0 to 2
      invariant footer == Footer(i, if k == 0 then textBytes else if k == 1 then once else Delivered(i, textBytes, once))
      invariant k > 0 ==> Widths(i, once) != Widths(i, textBytes)
    {
      var next := Footer(i, textBytes + CacheModel.ByteLength(footer));
      if CacheModel.ByteLength(next) == CacheModel.ByteLength(footer) {
        footer := next;
        break;
      }
      footer := next;
    }
    FooterLength(i, Shown(i, textBytes));
    DriftIsAtMostOne(i, textBytes);
  }

  // ---------- How far it can be off ----------

  function PowerOfTen(k: nat): nat {
    if k == 0 then 1 else 10 * PowerOfTen(k - 1)
  }

  lemma {:induction false} PowersGrow(a: nat, b: nat)
    ensures a < b ==> 10 * PowerOfTen(a) <= PowerOfTen(b)
    ensures a <= b ==> 1 <= PowerOfTen(a) <= PowerOfTen(b)
    decreases b
  {
    if 0 < a <= b {
      PowersGrow(a - 1, b - 1);
    } else if a < b {
      PowersGrow(a, b - 1);
    }
  }

  lemma {:induction false} PowersOutgrow(k: nat)
    ensures PowerOfTen(k) >= 9 * k + 1
  {
    if k > 0 {
      PowersOutgrow(k - 1);
    }
  }

  lemma {:induction false} DigitsBracket(n: nat)
    ensures Digits(n) >= 1 && n < PowerOfTen(Digits(n)) && (n > 0 ==> PowerOfTen(Digits(n) - 1) <= n)
  {
    if n >= 10 {
      DigitsBracket(n / 10);
      assert Digits(n) == Digits(n / 10) + 1;
    } else {
      assert Digits(n) == 1 && PowerOfTen(1) == 10 && PowerOfTen(0) == 1;
    }
  }

  lemma DigitsGrow(x: nat, y: nat)
    requires x <= y
    ensures Digits(x) <= Digits(y) && (y < 10 * x ==> Digits(y) <= Digits(x) + 1)
    ensures Digits(x) < Digits(y) ==> x < PowerOfTen(Digits(x)) <= y
  {
    DigitsBracket(x);
    DigitsBracket(y);
    assert Digits(0) == 1;
    hide Digits;
    PowersGrow(Digits(y), Digits(x) - 1);
    PowersGrow(Digits(x) + 1, Digits(y) - 1);
    PowersGrow(Digits(x), Digits(y) - 1);
    hide PowerOfTen;
    assert PowerOfTen(Digits(x) + 1) == 10 * PowerOfTen(Digits(x)) by { NextPower(Digits(x)); }
  }

  lemma NextPower(k: nat)
    ensures PowerOfTen(k + 1) == 10 * PowerOfTen(k)
  {
  }

  lemma TokensGrow(x: nat, y: nat)
    requires x <= y
    ensures TokensFromBytes(x) <= TokensFromBytes(y)
    ensures 0 < x && y < 2 * x ==> TokensFromBytes(y) < 10 * TokensFromBytes(x)
  {
  }

  // Within a factor of two, only one of a size and its tokens gets another digit.
  lemma OneMoreDigit(x: nat, y: nat)
    requires x <= y < 2 * x
    ensures Digits(y) + Digits(TokensFromBytes(y)) <= Digits(x) + Digits(TokensFromBytes(x)) + 1
  {
    var s, t := TokensFromBytes(x), TokensFromBytes(y);
    TokensGrow(x, y);
    DigitsGrow(x, y);
    DigitsGrow(s, t);
    var a, b := Digits(x), Digits(s);
    PowersGrow(a, b);
    PowersGrow(b, a);
    hide Digits, PowerOfTen;
  }

  lemma QuotientsGrow(a: nat, b: nat, d: nat)
    requires d > 0 && a <= b
    ensures a / d <= b / d
  {
    if b / d + 1 <= a / d {
      ProductsGrow(d, b / d + 1, a / d);
    }
  }

  lemma ProductsGrow(d: nat, p: nat, q: nat)
    requires p <= q
    ensures d * p <= d * q
  {
  }

  // Up to 90 percent of the raw tokens, the percentage has four or five characters, and loses none as tokens fall.
  lemma PercentWidth(r: nat, t: nat)
    requires 0 < r && t <= r
    ensures Tenths(r - t, r) <= 1000 && 3 <= |Percent(r, t)| <= 5
    ensures 10 * t <= 9 * r ==> |Percent(r, t)| >= 4
    ensures |Percent(r, t)| == Digits(Tenths(r - t, r) / 10) + 2
  {
    var tenths := Tenths(r - t, r);
    TenthsBounds(r, t);
    hide Tenths;
    assert |CacheNamespace.Decimal(tenths % 10)| == 1;
    DigitsGrow(tenths / 10, 100);
    if tenths >= 100 {
      DigitsGrow(10, tenths / 10);
    }
    SmallDigits();
  }

  lemma SmallDigits()
    ensures Digits(10) == 2 && Digits(100) == 3
  {
    assert Digits(1) == 1 && Digits(0) == 1;
    assert Digits(10) == Digits(1) + 1;
    assert Digits(100) == Digits(10) + 1;
  }

  lemma TenthsBounds(r: nat, t: nat)
    requires 0 < r && t <= r
    ensures Tenths(r - t, r) <= 1000 && (10 * t <= 9 * r ==> Tenths(r - t, r) >= 100)
  {
    var top := 2000 * (r - t) + r;
    QuotientsGrow(top, 2000 * r + r, 2 * r);
    assert (2000 * r + r) / (2 * r) == 1000 by { QuotientIs(2000 * r + r, 2 * r, 1000); }
    if 10 * t <= 9 * r {
      QuotientsGrow(200 * r, top, 2 * r);
      QuotientIs(200 * r, 2 * r, 100);
    }
  }

  lemma QuotientIs(a: nat, d: nat, q: nat)
    requires q * d <= a < q * d + d
    ensures a / d == q
  {
    if a / d < q {
      ProductsGrow(d, a / d + 1, q);
    } else if a / d > q {
      ProductsGrow(d, q + 1, a / d);
    }
  }

  lemma PercentShrinks(r: nat, s: nat, t: nat)
    requires 0 < r && s <= t <= r
    ensures |Percent(r, t)| <= |Percent(r, s)|
  {
    PercentWidth(r, s);
    PercentWidth(r, t);
    QuotientsGrow(2000 * (r - t) + r, 2000 * (r - s) + r, 2 * r);
    assert Tenths(r - t, r) <= Tenths(r - s, r);
    hide Tenths, Percent;
    DigitsGrow(Tenths(r - t, r) / 10, Tenths(r - s, r) / 10);
  }

  // ---------- Delivered outputs ----------

  // Small enough for the percentage to have four characters at least.
  predicate IsModest(i: FooterInput, n: nat) {
    var r := TokensFromBytes(i.rawBytes);
    0 < r && 10 * TokensFromBytes(n) <= 9 * r
  }

  lemma WidthsMoveByOne(i: FooterInput, x: nat, y: nat)
    requires x <= y < 2 * x && IsModest(i, y)
    ensures -1 <= Widths(i, y) - Widths(i, x) <= 1
  {
    var r, s, t := TokensFromBytes(i.rawBytes), TokensFromBytes(x), TokensFromBytes(y);
    TokensGrow(x, y);
    OneMoreDigit(x, y);
    DigitsGrow(x, y);
    DigitsGrow(s, t);
    PercentWidth(r, s);
    PercentWidth(r, t);
    PercentShrinks(r, s, t);
    hide Percent, Digits, TokensFromBytes, Tenths, PowerOfTen;
  }

  // From the text to a footer's first size the widths hardly fall, and grow by less than that size.
  lemma WidthsGrow(i: FooterInput, x: nat, y: nat)
    requires x <= y && IsModest(i, y)
    ensures -1 <= Widths(i, y) - Widths(i, x)
    ensures y >= 2 ==> Widths(i, y) - Widths(i, x) < y
  {
    var r, s, t := TokensFromBytes(i.rawBytes), TokensFromBytes(x), TokensFromBytes(y);
    TokensGrow(x, y);
    DigitsGrow(x, y);
    DigitsGrow(s, t);
    PercentWidth(r, s);
    PercentWidth(r, t);
    PercentShrinks(r, s, t);
    TokensAreFewer(y);
    DigitsGrow(t, y);
    FewDigits(y);
    DigitsBracket(x);
    DigitsBracket(s);
    hide Percent, Digits, TokensFromBytes, Tenths, PowerOfTen;
  }

  lemma TokensAreFewer(n: nat)
    ensures TokensFromBytes(n) <= n
  {
  }

  lemma FewDigits(n: nat)
    ensures 9 * Digits(n) <= n + 17 && (n > 0 ==> 9 * Digits(n) <= n + 8)
  {
    DigitsBracket(n);
    PowersOutgrow(Digits(n) - 1);
    hide Digits, PowerOfTen;
  }

  // At a size not below another, the widths are at most two less.
  lemma WidthsFallByTwo(i: FooterInput, x: nat, y: nat)
    requires x <= y && 0 < TokensFromBytes(i.rawBytes) && TokensFromBytes(x) <= TokensFromBytes(i.rawBytes)
    ensures Widths(i, x) <= Widths(i, y) + 2
  {
    var r, s, t := TokensFromBytes(i.rawBytes), TokensFromBytes(x), TokensFromBytes(y);
    TokensGrow(x, y);
    DigitsGrow(x, y);
    DigitsGrow(s, t);
    PercentWidth(r, s);
    PercentIsAscii(r, t);
    hide Percent, Digits, TokensFromBytes, Tenths, PowerOfTen;
  }

  lemma AdmittedIsModest(i: FooterInput, delivered: nat, n: nat)
    requires Admits(i.rawBytes, delivered) && n <= delivered + 2
    ensures IsModest(i, n) && TokensFromBytes(n) <= TokensFromBytes(i.rawBytes)
  {
  }

  /** The source accepts that the stated size drifts; it drifts by one byte at most. */
  lemma DriftIsAtMostOne(i: FooterInput, textBytes: nat)
    ensures var shown := Shown(i, textBytes);
      var delivered := Delivered(i, textBytes, shown);
      && (shown == delivered <==> WidthsSettle(i, textBytes))
      && (Admits(i.rawBytes, delivered) ==> -1 <= delivered - shown <= 1)
  {
    hide Widths, FixedBytes, Admits, IsModest, TokensFromBytes;
    var once := Delivered(i, textBytes, textBytes);
    var shown := Shown(i, textBytes);
    var delivered := Delivered(i, textBytes, shown);
    if Admits(i.rawBytes, delivered) && shown != once {
      SizesAreModest(i, textBytes, once, shown, delivered);
      WidthsGrow(i, textBytes, once);
      if once <= shown {
        WidthsMoveByOne(i, once, shown);
      } else {
        WidthsMoveByOne(i, shown, once);
      }
    }
  }

  lemma SizesAreModest(i: FooterInput, textBytes: nat, once: nat, shown: nat, delivered: nat)
    requires once == Delivered(i, textBytes, textBytes) && shown == Delivered(i, textBytes, once)
    requires delivered == Delivered(i, textBytes, shown) && Admits(i.rawBytes, delivered)
    ensures once >= 3 && IsModest(i, once) && IsModest(i, shown)
  {
    hide FixedBytes, Admits, IsModest, TokensFromBytes, Digits, Percent;
    AdmittedIsModest(i, delivered, textBytes);
    PercentIsAscii(TokensFromBytes(i.rawBytes), TokensFromBytes(textBytes));
    PercentIsAscii(TokensFromBytes(i.rawBytes), TokensFromBytes(once));
    assert once >= 3 && shown >= 3;
    hide Widths;
    WidthsFallByTwo(i, textBytes, shown);
    AdmittedIsModest(i, delivered, once);
    if once <= shown {
      WidthsFallByTwo(i, once, shown);
    }
    AdmittedIsModest(i, delivered, shown);
  }

  // ---------- One output that is off ----------

  // A stored output of 2048 bytes that looks truncated, in two chunks, under an id of 36 characters.
  const ID := "00000000-0000-4000-8000-000000000000"
  const OFF := FooterInput(2048, ID, 2, true)

  lemma OffWidths()
    ensures Widths(OFF, 73) == 8 && Widths(OFF, 396) == 9 && Widths(OFF, 397) == 10
  {
  }

  lemma BytesOfThree(a: string, b: string, c: string)
    ensures CacheModel.ByteLength(a + b + c) ==
      CacheModel.ByteLength(a) + CacheModel.ByteLength(b) + CacheModel.ByteLength(c)
  {
    CacheModel.ByteLengthSum(a, b);
    CacheModel.ByteLengthSum(a + b, c);
  }

  lemma BytesOfFive(a: string, b: string, c: string, d: string, e: string)
    ensures CacheModel.ByteLength(a + b + c + d + e) ==
      CacheModel.ByteLength(a) + CacheModel.ByteLength(b) + CacheModel.ByteLength(c)
      + CacheModel.ByteLength(d) + CacheModel.ByteLength(e)
  {
    BytesOfThree(a, b, c);
    BytesOfThree(a + b + c, d, e);
  }

  lemma ArrowBytes()
    ensures CacheModel.ByteLength("\U{2192}") == 3 && CacheModel.ByteLength("\U{2014}") == 3
  {
    CacheModel.ByteLengthSum("", "\U{2192}");
  }

  lemma DecimalBytes(n: nat)
    ensures CacheModel.ByteLength(CacheNamespace.Decimal(n)) == Digits(n)
    ensures n < 10 ==> Digits(n) == 1
  {
    DecimalIsAscii(n);
    AsciiBytes(CacheNamespace.Decimal(n));
  }

  lemma LeadTexts()
    ensures CacheModel.ByteLength("\n\n[Mega Saver: compressed ") == 26 && CacheModel.ByteLength(" B (~") == 5
  {
    hide CacheModel.ByteLength;
    AsciiBytes("\n\n[Mega Saver: compressed ");
    AsciiBytes(" B (~");
  }

  lemma LeadBytes(i: FooterInput)
    ensures CacheModel.ByteLength(Lead(i)) == 29 + Digits(i.rawBytes)
    ensures CacheModel.ByteLength(Middle(i)) == 8 + Digits(TokensFromBytes(i.rawBytes))
  {
    hide CacheModel.ByteLength, CacheNamespace.Decimal, TokensFromBytes;
    LeadTexts();
    DecimalBytes(i.rawBytes);
    DecimalBytes(TokensFromBytes(i.rawBytes));
    ArrowBytes();
    BytesOfThree("\n\n[Mega Saver: compressed ", CacheNamespace.Decimal(i.rawBytes), "\U{2192}");
    BytesOfThree(" B (~", CacheNamespace.Decimal(TokensFromBytes(i.rawBytes)), "\U{2192}");
  }

  lemma ExpandTexts()
    ensures CacheModel.ByteLength(" stored in ") == 11
    ensures CacheModel.ByteLength(" chunks of ~40 lines each;") == 26 && CacheModel.ByteLength(" fetch any with: ") == 17
  {
    hide CacheModel.ByteLength;
    AsciiBytes(" stored in ");
    AsciiBytes(" chunks of ~40 lines each;");
    AsciiBytes(" fetch any with: ");
  }

  lemma CommandTexts()
    ensures CacheModel.ByteLength("mega output chunk \"") == 19
    ensures CacheModel.ByteLength("\" \"<i>\" (i = 0..") == 16 && CacheModel.ByteLength(")") == 1
  {
    hide CacheModel.ByteLength;
    AsciiBytes("mega output chunk \"");
    AsciiBytes("\" \"<i>\" (i = 0..");
    AsciiBytes(")");
  }

  lemma IdText()
    ensures CacheModel.ByteLength(ID) == 36
  {
    hide CacheModel.ByteLength;
    AsciiBytes(ID);
  }

  lemma NoteTexts()
    ensures CacheModel.ByteLength("NOTE: upstream output") == 21 && CacheModel.ByteLength(" appears truncated, ") == 20
    ensures CacheModel.ByteLength("recovered chunks are") == 20
  {
    hide CacheModel.ByteLength;
    AsciiBytes("NOTE: upstream output");
    AsciiBytes(" appears truncated, ");
    AsciiBytes("recovered chunks are");
  }

  lemma PartialText()
    ensures CacheModel.ByteLength(" PARTIAL, not complete ") == 23 && CacheModel.ByteLength("%). ") == 4
    ensures CacheModel.ByteLength(".]") == 2 && CacheModel.ByteLength(" tokens, ") == 9
  {
    hide CacheModel.ByteLength;
    AsciiBytes(" PARTIAL, not complete ");
    AsciiBytes("%). ");
    AsciiBytes(".]");
    AsciiBytes(" tokens, ");
  }

  lemma EndTexts()
    ensures CacheModel.ByteLength(" (or MCP proxy_expand_chunk") == 27 && CacheModel.ByteLength(" if connected)") == 14
  {
    hide CacheModel.ByteLength;
    AsciiBytes(" (or MCP proxy_expand_chunk");
    AsciiBytes(" if connected)");
  }

  lemma OffExpand()
    ensures CacheModel.ByteLength(Expand(OFF)) == 131
  {
    ArrowBytes();
    ExpandTexts();
    CommandTexts();
    IdText();
    DecimalBytes(2);
    DecimalBytes(1);
    hide CacheModel.ByteLength, CacheNamespace.Decimal;
    var head := "\U{2014}" + " stored in " + CacheNamespace.Decimal(2) + " chunks of ~40 lines each;" + " fetch any with: ";
    BytesOfFive("\U{2014}", " stored in ", CacheNamespace.Decimal(2), " chunks of ~40 lines each;", " fetch any with: ");
    BytesOfThree(head, "mega output chunk \"", ID);
    BytesOfThree(head + "mega output chunk \"" + ID, "\" \"<i>\" (i = 0..", CacheNamespace.Decimal(1));
    CacheModel.ByteLengthSum(head + "mega output chunk \"" + ID + "\" \"<i>\" (i = 0.." + CacheNamespace.Decimal(1), ")");
  }

  lemma OffRecovery()
    ensures CacheModel.ByteLength(Recovery(OFF)) == 256
  {
    OffExpand();
    NoteTexts();
    PartialText();
    EndTexts();
    hide CacheModel.ByteLength, Expand;
    var note := "NOTE: upstream output" + " appears truncated, " + "recovered chunks are" + " PARTIAL, not complete ";
    BytesOfThree("NOTE: upstream output", " appears truncated, ", "recovered chunks are");
    CacheModel.ByteLengthSum("NOTE: upstream output" + " appears truncated, " + "recovered chunks are", " PARTIAL, not complete ");
    BytesOfThree(note, Expand(OFF), " (or MCP proxy_expand_chunk");
    CacheModel.ByteLengthSum(note + Expand(OFF) + " (or MCP proxy_expand_chunk", " if connected)");
  }

  lemma OffFixedBytes()
    ensures FixedBytes(OFF) == 315
  {
    LeadBytes(OFF);
    OffRecovery();
    PartialText();
    OffDigits();
    hide CacheModel.ByteLength, Lead, Middle, Recovery, Digits;
    BytesOfThree("%). ", Recovery(OFF), ".]");
  }

  lemma OffDigits()
    ensures Digits(2048) == 4 && Digits(512) == 3
  {
    assert Digits(2) == 1 && Digits(20) == 2 && Digits(204) == 3;
    assert Digits(5) == 1 && Digits(51) == 2;
  }

  /** With a text of 73 bytes the footer states 397 bytes, and 398 are delivered. */
  lemma OffByOne()
    ensures Shown(OFF, 73) == 397 && Delivered(OFF, 73, 397) == 398
    ensures Admits(2048, 398) && !WidthsSettle(OFF, 73)
  {
    OffWidths();
    OffFixedBytes();
    hide Widths, FixedBytes;
  }
}
