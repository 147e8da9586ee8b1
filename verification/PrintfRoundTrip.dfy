/** Which padded decimal fields `atoll` reads back. */
module PrintfRoundTrip {
  import opened Prelude
  import opened Numerals
  import opened Strings
  import opened Parse
  import opened PrintfSpec
  import opened PrintfLaws
  import opened PrintfDirectives

  lemma {:induction false} PaddingIs(zero: bool, n: int)
    ensures zero && n >= 0 ==> Padding(zero, n) == Zeros(n)
    ensures !zero ==> AreSpaces(Padding(zero, n))
  {
    if n > 0 {
      PaddingIs(zero, n - 1);
    }
  }

  lemma {:induction false} SpacesReadBack(left: bool, v: int, n: int)
    ensures var padding := Padding(false, n);
      DenotedAt(if left then Decimal(v) + padding else padding + Decimal(v), 0) == v
  {
    var padding := Padding(false, n);
    PaddingIs(false, n);
    if left {
      ReadsBack("", v, padding);
      assert "" + Decimal(v) + padding == Decimal(v) + padding;
    } else {
      ReadsBack(padding, v, "");
      assert padding + Decimal(v) + "" == padding + Decimal(v);
    }
  }

  lemma ZerosReadBackExactlyFor(left: bool, v: int, n: int)
    ensures var padding := Padding(true, n);
      DenotedAt(if left then Decimal(v) + padding else padding + Decimal(v), 0) == v
      <==> (n <= 0 || (if left then v == 0 else v >= 0))
  {
    if n <= 0 {
      DecimalReadsBack(v);
      assert Padding(true, n) == "" && Decimal(v) + "" == Decimal(v) == "" + Decimal(v);
    } else {
      PaddingIs(true, n);
      if left {
        ZerosBehindReadBackExactlyFor(v, n);
      } else {
        ZeroPaddedReadsBackExactlyFor(v, n);
      }
    }
  }

  /**
   The field of a number reads back as that number if and only if it is not filled up with
   zeros on the wrong side: the engine puts zeros before the sign, and behind the digits of
   a left-justified number.
   */
  lemma FieldReadsBackExactlyFor(conv: ConversionSpec, v: int)
    requires conv.minWidth >= 0
    ensures DenotedAt(TextOf(Field(Empty, conv, Decimal(v))), 0) == v <==>
      (!conv.zeroPad || conv.minWidth <= |Decimal(v)| || (if conv.leftJustify then v == 0 else v >= 0))
  {
    FieldOfDecimal(conv, Decimal(v));
    if conv.zeroPad {
      ZerosReadBackExactlyFor(conv.leftJustify, v, conv.minWidth - |Decimal(v)|);
    } else {
      SpacesReadBack(conv.leftJustify, v, conv.minWidth - |Decimal(v)|);
    }
  }

  lemma FieldOfDecimal(conv: ConversionSpec, body: string)
    requires conv.minWidth >= 0
    ensures var padding := Padding(conv.zeroPad, conv.minWidth - |body|);
      TextOf(Field(Empty, conv, body)) == if conv.leftJustify then body + padding else padding + body
  {
    var padding := Padding(conv.zeroPad, conv.minWidth - |body|);
    if conv.leftJustify {
      LeftText(body, conv.zeroPad, conv.minWidth - |body|);
    } else {
      RightText(body, conv.zeroPad, conv.minWidth - |body|);
    }
  }

  lemma LeftText(body: string, zero: bool, n: int)
    ensures TextOf(Pad(PutAll(Empty, body), zero, n)) == body + Padding(zero, n)
  {
    TextOfChars(Empty, body, |body|);
    assert TextOf(Empty) + body[..|body|] == body;
    TextOfPad(PutAll(Empty, body), zero, n);
  }

  lemma RightText(body: string, zero: bool, n: int)
    ensures TextOf(PutAll(Pad(Empty, zero, n), body)) == Padding(zero, n) + body
  {
    TextOfPad(Empty, zero, n);
    assert TextOf(Empty) + Padding(zero, n) == Padding(zero, n);
    assert body[..|body|] == body;
    TextOfChars(Pad(Empty, zero, n), body, |body|);
  }

  // ---------------------------------------------------------------- the width of the argument

  /** A format of one directive: a percent sign, `longs` letters l, and the letter of the conversion. */
  predicate IsPlain(format: CString, longs: nat, conversion: Conversion) {
    && |format| == longs + 2 && format[0] == '%' && format[longs + 1] == Letter(conversion)
    && (forall k :: 1 <= k <= longs ==> format[k] == 'l')
  }

  lemma PlainText(format: CString, longs: nat, conversion: Conversion, w: Word)
    requires IsPlain(format, longs, conversion)
    ensures TextOf(Render(format, [Number(w)])) == Converted(conversion, false, longs, [Number(w)], 0)
  {
    var item := Directive([], NoWidth, longs, conversion);
    var body := Converted(conversion, false, longs, [Number(w)], 0);
    assert [item][1..] == [];
    assert Spells(format, 0, [item]);
    RenderIsMeaning(format, [item], [Number(w)]);
    assert MeaningOf([item], [Number(w)], 0, Empty) == Field(Empty, Spec([], 0, longs), body);
    FieldOfDecimal(Spec([], 0, longs), body);
    assert body + Padding(false, -|body|) == body == Padding(false, -|body|) + body;
  }

  /**
   What the engine prints for u, x and b, read as a numeral to base 10, 16 or 2: the low 32 bits of
   the argument without a length modifier, and the whole 64-bit argument with 1 to 255 of them.
   */
  lemma UnsignedReadsBack(format: CString, longs: nat, conversion: Conversion, w: Word)
    requires IsPlain(format, longs, conversion) && longs <= 255
    requires conversion == Unsigned || conversion == Hex || conversion == Binary
    ensures var base := if conversion == Unsigned then 10 else if conversion == Hex then 16 else 2;
      ValueOf(base, TextOf(Render(format, [Number(w)]))) == if longs == 0 then w % 0x1_0000_0000 else w
  {
    hide Render, TextOf, IsPlain, Digits, ValueOf, UnsignedUnder;
    PlainText(format, longs, conversion, w);
    NumeralDenotes(conversion, longs, w);
    UnsignedIsCut(longs, w);
  }

  lemma UnsignedIsCut(longs: nat, w: Word)
    requires longs <= 255
    ensures UnsignedUnder(longs, w) == if longs == 0 then w % 0x1_0000_0000 else w
  {
  }

  lemma NumeralDenotes(conversion: Conversion, longs: nat, w: Word)
    requires conversion == Unsigned || conversion == Hex || conversion == Binary
    ensures var base := if conversion == Unsigned then 10 else if conversion == Hex then 16 else 2;
      ValueOf(base, Converted(conversion, false, longs, [Number(w)], 0)) == UnsignedUnder(longs, w)
  {
    var n := UnsignedUnder(longs, w);
    hide Digits, ValueOf, UnsignedUnder;
    assert "" + Digits(16, n) == Digits(16, n) && "" + Digits(2, n) == Digits(2, n);
    DigitsDenote(if conversion == Unsigned then 10 else if conversion == Hex then 16 else 2, n);
  }

  /** What the engine prints for d is read back as the argument, cut to 32 bits if there is no length modifier. */
  lemma SignedReadsBack(format: CString, longs: nat, v: int)
    requires IsPlain(format, longs, Signed) && longs <= 255 && INT64_MIN <= v <= INT64_MAX
    ensures var read := DenotedAt(TextOf(Render(format, [Number(v % 0x1_0000_0000_0000_0000)])), 0);
      && (longs > 0 ==> read == v)
      && (longs == 0 ==> -0x8000_0000 <= read <= 0x7FFF_FFFF && (read - v) % 0x1_0000_0000 == 0)
  {
    hide Render, TextOf, IsPlain, Decimal, Digits, DenotedAt, SignedUnder;
    var w: Word := v % 0x1_0000_0000_0000_0000;
    PlainText(format, longs, Signed, w);
    DecimalReadsBack(SignedUnder(longs, w));
    SignedIsCut(longs, v);
  }

  lemma SignedIsCut(longs: nat, v: int)
    requires longs <= 255 && INT64_MIN <= v <= INT64_MAX
    ensures var n := SignedUnder(longs, v % 0x1_0000_0000_0000_0000);
      && (longs > 0 ==> n == v)
      && (longs == 0 ==> -0x8000_0000 <= n <= 0x7FFF_FFFF && (n - v) % 0x1_0000_0000 == 0)
  {
    if longs == 0 {
      LowBits(v);
    }
  }

  lemma LowBits(v: int)
    ensures v % 0x1_0000_0000_0000_0000 % 0x1_0000_0000 == v % 0x1_0000_0000
  {
    var k, r := v / 0x1_0000_0000_0000_0000, v % 0x1_0000_0000_0000_0000;
    SameLow(r, k * 0x1_0000_0000);
    assert v == r + k * 0x1_0000_0000 * 0x1_0000_0000;
  }

  lemma SameLow(r: int, k: int)
    ensures (r + k * 0x1_0000_0000) % 0x1_0000_0000 == r % 0x1_0000_0000
  {
  }

  /**
   The round trip through the engine: what `%lld` or `%ld` prints is read back as the number, for
   every 64-bit number; what `%d` prints is read back as the number if and only if it has 32 bits.
   */
  lemma PrintedReadsBack(v: int)
    requires INT64_MIN <= v <= INT64_MAX
    ensures DenotedAt(TextOf(Render("%lld", [Number(v % 0x1_0000_0000_0000_0000)])), 0) == v
    ensures DenotedAt(TextOf(Render("%ld", [Number(v % 0x1_0000_0000_0000_0000)])), 0) == v
    ensures DenotedAt(TextOf(Render("%d", [Number(v % 0x1_0000_0000_0000_0000)])), 0) == v <==>
            -0x8000_0000 <= v <= 0x7FFF_FFFF
  {
    hide Render, TextOf, DenotedAt;
    SignedReadsBack("%lld", 2, v);
    SignedReadsBack("%ld", 1, v);
    SignedReadsBack("%d", 0, v);
  }
}
