/**
 The printf formats of section 7.21.6.1 of ISO/IEC 9899:2011, as far as the engine supports
 them, as a syntax tree; and the proof that interpreting the text of a format character by
 character does what the tree means.
 */
module PrintfDirectives {
  import opened Prelude
  import opened Numerals
  import opened Strings
  import opened Parse
  import opened PrintfSpec

  datatype Flag = Alternative | Left | Zero

  datatype Width = NoWidth | Fixed(w: nat) | Star

  datatype Item =
    | Literal(c: char)
    | Percent
    | Pointer
    | Directive(flags: seq<Flag>, width: Width, longs: nat, conversion: Conversion)

  predicate ZeroOnlyOnce(flags: seq<Flag>) {
    var n := |flags| - 1;
    flags == [] || (ZeroOnlyOnce(flags[..n]) && (flags[n] == Zero ==> Zero !in flags[..n]))
  }

  /** Flags come in any order; a fixed width is a positive `int`. */
  predicate WellFormed(item: Item) {
    match item
    case Literal(c) => c != '%' && c != '\0'
    case Percent => true
    case Pointer => true
    case Directive(flags, width, _, _) => ZeroOnlyOnce(flags) && (width.Fixed? ==> 0 < width.w <= 0x7FFF_FFFF)
  }

  // ---------------------------------------------------------------- syntax

  function FlagChar(f: Flag): char {
    match f
    case Alternative => '#'
    case Left => '-'
    case Zero => '0'
  }

  /** The flags stand in the format from index `i` on. */
  predicate FlagsStand(format: CString, i: nat, flags: seq<Flag>) {
    i + |flags| <= |format| && forall n :: 0 <= n < |flags| ==> format[i + n] == FlagChar(flags[n])
  }

  function WidthLength(width: Width): nat {
    match width
    case NoWidth => 0
    case Fixed(w) => |Digits(10, w)|
    case Star => 1
  }

  predicate WidthStands(format: CString, i: nat, width: Width) {
    && i + WidthLength(width) <= |format|
    && match width
       case NoWidth => true
       case Fixed(w) => format[i..i + |Digits(10, w)|] == Digits(10, w)
       case Star => format[i] == '*'
  }

  predicate LongsStand(format: CString, i: nat, longs: nat) {
    i + longs <= |format| && forall n :: i <= n < i + longs ==> format[n] == 'l'
  }

  function Letter(conversion: Conversion): (c: char)
    ensures ConversionOf(c) == Some(conversion) && c != '0' && c != 'l' && !IsDecimalDigit(c)
  {
    match conversion
    case Char => 'c'
    case String => 's'
    case Hex => 'x'
    case Binary => 'b'
    case Signed => 'd'
    case Unsigned => 'u'
  }

  /** The number of characters of an item. */
  function ItemLength(item: Item): nat {
    match item
    case Literal(_) => 1
    case Percent => 2
    case Pointer => 2
    case Directive(flags, width, longs, _) => 1 + |flags| + WidthLength(width) + longs + 1
  }

  /** The item is written in the format from index `i` on. */
  predicate ItemStands(format: CString, i: nat, item: Item) {
    && i + ItemLength(item) <= |format|
    && match item
       case Literal(c) => format[i] == c
       case Percent => format[i] == '%' && format[i + 1] == '%'
       case Pointer => format[i] == '%' && format[i + 1] == 'p'
       case Directive(flags, width, longs, conversion) =>
         var j := i + 1 + |flags|;
         var h := j + WidthLength(width);
         && format[i] == '%' && FlagsStand(format, i + 1, flags) && WidthStands(format, j, width)
         && LongsStand(format, h, longs) && format[h + longs] == Letter(conversion)
  }

  /** From index `i` on, the format consists of the items. */
  predicate Spells(format: CString, i: nat, items: seq<Item>)
    decreases |items|
  {
    if items == [] then i == |format|
    else ItemStands(format, i, items[0]) && Spells(format, i + ItemLength(items[0]), items[1..])
  }

  // ---------------------------------------------------------------- meaning

  function WidthOf(width: Width, args: seq<Arg>, next: nat): int {
    match width
    case NoWidth => 0
    case Fixed(w) => w
    case Star => ToInt32(NumberArg(args, next))
  }

  function Spec(flags: seq<Flag>, width: int, longs: nat): ConversionSpec {
    ConversionSpec(longs % 256, Zero in flags, Left in flags, Alternative in flags, None, width)
  }

  function ArgsForWidth(width: Width): nat {
    if width.Star? then 1 else 0
  }

  /** The arguments that an item uses: one for a variable width, and one to convert. */
  function ArgsUsed(item: Item): nat {
    match item
    case Literal(_) => 0
    case Percent => 0
    case Pointer => 1
    case Directive(_, width, _, _) => ArgsForWidth(width) + 1
  }

  /**
   The number that an argument is under `longs` letters l: its low 32 bits under none of them (or
   under 256, their count being 8 bits wide), and all 64 bits under any other number of them.
   */
  function UnsignedUnder(longs: nat, w: Word): nat {
    if longs % 256 == 0 then w % 0x1_0000_0000 else w
  }

  /** ... as a signed number. */
  function SignedUnder(longs: nat, w: Word): int {
    var n, m := UnsignedUnder(longs, w), if longs % 256 == 0 then 0x1_0000_0000 else 0x1_0000_0000_0000_0000;
    if n < m / 2 then n else n - m
  }

  /** The text of a converted argument. */
  function Converted(conversion: Conversion, alternative: bool, longs: nat, args: seq<Arg>, k: nat): string {
    match conversion
    case Char => [(NumberArg(args, k) % 256) as char]
    case String => TextArg(args, k)
    case Hex => (if alternative then "0x" else "") + Digits(16, UnsignedUnder(longs, NumberArg(args, k)))
    case Binary => (if alternative then "0b" else "") + Digits(2, UnsignedUnder(longs, NumberArg(args, k)))
    case Signed => Decimal(SignedUnder(longs, NumberArg(args, k)))
    case Unsigned => Digits(10, UnsignedUnder(longs, NumberArg(args, k)))
  }

  lemma BodyIsConverted(conversion: Conversion, flags: seq<Flag>, width: int, longs: nat, args: seq<Arg>, k: nat)
    ensures Body(conversion, Spec(flags, width, longs), args, k) ==
            Converted(conversion, Alternative in flags, longs, args, k)
  {
    hide Digits, Decimal;
  }

  function Meaning(item: Item, args: seq<Arg>, next: nat, l: Log): Log {
    match item
    case Literal(c) => Put(l, c)
    case Percent => Put(l, '%')
    case Pointer => Field(Put(Put(l, '0'), 'x'), Spec([Zero], 16, 1), Digits(16, NumberArg(args, next)))
    case Directive(flags, width, longs, conversion) =>
      var spec := Spec(flags, WidthOf(width, args, next), longs);
      Field(l, spec, Converted(conversion, Alternative in flags, longs, args, next + ArgsForWidth(width)))
  }

  function MeaningOf(items: seq<Item>, args: seq<Arg>, next: nat, l: Log): Log {
    if items == [] then l
    else MeaningOf(items[1..], args, next + ArgsUsed(items[0]), Meaning(items[0], args, next, l))
  }

  // ---------------------------------------------------------------- interpreting one piece of the format

  lemma {:induction false} RunSplit(format: CString, i: nat, j: nat, k: nat, at: Cursor, args: seq<Arg>)
    requires i <= j <= k <= |format|
    ensures Run(format, i, k, at, args) == Run(format, j, k, Run(format, i, j, at, args), args)
  {
    if j < k {
      RunSplit(format, i, j, k - 1, at, args);
    }
  }

  lemma RunTwo(format: CString, i: nat, j: nat, k: nat, at: Cursor, mid: Cursor, end: Cursor, args: seq<Arg>)
    requires i <= j <= k <= |format|
    requires Run(format, i, j, at, args) == mid && Run(format, j, k, mid, args) == end
    ensures Run(format, i, k, at, args) == end
  {
    RunSplit(format, i, j, k, at, args);
  }

  lemma {:induction false} RunFlags(format: CString, i: nat, flags: seq<Flag>, n: nat, next: nat, l: Log,
                                    args: seq<Arg>)
    requires FlagsStand(format, i, flags) && ZeroOnlyOnce(flags) && n <= |flags|
    ensures Run(format, i, i + n, Cursor(true, NO_CONVERSION, next, l), args) ==
            Cursor(true, Spec(flags[..n], 0, 0), next, l)
  {
    if n > 0 {
      RunFlags(format, i, flags, n - 1, next, l, args);
      ZeroOnlyOnceBefore(flags, n);
      FlagStep(format, i + n - 1, flags, n - 1, next, l, args);
    } else {
      assert Spec(flags[..0], 0, 0) == NO_CONVERSION;
    }
  }

  lemma {:induction false} ZeroOnlyOnceBefore(flags: seq<Flag>, n: nat)
    requires n <= |flags| && ZeroOnlyOnce(flags)
    ensures ZeroOnlyOnce(flags[..n])
  {
    if n == |flags| {
      assert flags[..n] == flags;
    } else {
      ZeroOnlyOnceBefore(flags[..|flags| - 1], n);
      assert flags[..|flags| - 1][..n] == flags[..n];
    }
  }

  lemma FlagStep(format: CString, i: nat, flags: seq<Flag>, n: nat, next: nat, l: Log, args: seq<Arg>)
    requires i < |format| && n < |flags| && ZeroOnlyOnce(flags[..n + 1]) && format[i] == FlagChar(flags[n])
    ensures Step(format, i, Cursor(true, Spec(flags[..n], 0, 0), next, l), args) ==
            Cursor(true, Spec(flags[..n + 1], 0, 0), next, l)
  {
    var before, f := flags[..n], flags[n];
    assert flags[..n + 1] == before + [f];
    assert flags[..n + 1][..n] == before;
    OneMoreFlag(before, f);
  }

  lemma OneMoreFlag(flags: seq<Flag>, f: Flag)
    ensures Spec(flags + [f], 0, 0) ==
      match f
      case Alternative => Spec(flags, 0, 0).(alternative := true)
      case Left => Spec(flags, 0, 0).(leftJustify := true)
      case Zero => Spec(flags, 0, 0).(zeroPad := true)
  {
    assert forall g :: g in flags + [f] <==> g in flags || g == f;
  }

  lemma WidthDigit(w: nat, k: nat)
    requires w > 0 && k < |Digits(10, w)|
    ensures IsDecimalDigit(Digits(10, w)[k]) && (k == 0 ==> Digits(10, w)[k] != '0')
  {
    DigitsAreDigits(w);
    NoLeadingZero(10, w);
  }

  lemma {:induction false} RunDigits(format: CString, i: nat, w: nat, n: nat, at: Cursor, args: seq<Arg>)
    requires i + |Digits(10, w)| <= |format| && format[i..i + |Digits(10, w)|] == Digits(10, w)
    requires w > 0 && 0 < n <= |Digits(10, w)|
    requires at.inConversionSpec && at.conversion.minWidthChars == None
    ensures Run(format, i, i + n, at, args) == at.(conversion := at.conversion.(minWidthChars := Some(i)))
  {
    assert format[i + n - 1] == format[i..i + |Digits(10, w)|][n - 1];
    WidthDigit(w, n - 1);
    if n > 1 {
      RunDigits(format, i, w, n - 1, at, args);
    } else {
      assert Run(format, i, i, at, args) == at;
    }
  }

  /** The width that a directive leaves behind, still as digits or already as a number. */
  function AfterWidth(width: Width, i: nat, at: Cursor, args: seq<Arg>): Cursor {
    match width
    case NoWidth => at
    case Fixed(_) => at.(conversion := at.conversion.(minWidthChars := Some(i)))
    case Star => at.(conversion := at.conversion.(minWidth := WidthOf(Star, args, at.next)), next := at.next + 1)
  }

  lemma RunWidth(format: CString, i: nat, width: Width, at: Cursor, args: seq<Arg>)
    requires WidthStands(format, i, width) && (width.Fixed? ==> width.w > 0)
    requires at.inConversionSpec && at.conversion.minWidthChars == None
    ensures Run(format, i, i + WidthLength(width), at, args) == AfterWidth(width, i, at, args)
  {
    match width
    case NoWidth =>
    case Fixed(w) => RunDigits(format, i, w, |Digits(10, w)|, at, args);
    case Star =>
      assert Run(format, i, i, at, args) == at;
  }

  /** The digits of a width are read back as that width, because no digit follows them. */
  lemma WidthIsRead(format: CString, i: nat, w: nat)
    requires w <= 0x7FFF_FFFF && i + |Digits(10, w)| < |format|
    requires format[i..i + |Digits(10, w)|] == Digits(10, w) && !IsDecimalDigit(format[i + |Digits(10, w)|])
    ensures WidthAt(format, i) == w
  {
    NumberAtDecimal(format, i, w);
    SpacesEndAt(format, i, i);
  }

  /** After `n` length modifiers; the first of them ends the digits of a width. */
  function AfterLongs(format: CString, at: Cursor, n: nat): Cursor {
    if n == 0 then at else at.(conversion := EndWidth(format, at.conversion).(longModifiers := n % 256))
  }

  lemma {:induction false} RunLongs(format: CString, i: nat, longs: nat, n: nat, at: Cursor, args: seq<Arg>)
    requires LongsStand(format, i, longs) && n <= longs
    requires at.inConversionSpec && at.conversion.longModifiers == 0
    ensures Run(format, i, i + n, at, args) == AfterLongs(format, at, n)
  {
    if n > 0 {
      RunLongs(format, i, longs, n - 1, at, args);
      LongStep(format, i + n - 1, n - 1, at, args);
    }
  }

  lemma LongStep(format: CString, i: nat, n: nat, at: Cursor, args: seq<Arg>)
    requires i < |format| && format[i] == 'l' && at.inConversionSpec && at.conversion.longModifiers == 0
    ensures Step(format, i, AfterLongs(format, at, n), args) == AfterLongs(format, at, n + 1)
  {
    assert (n % 256 + 1) % 256 == (n + 1) % 256;
  }

  // ---------------------------------------------------------------- interpreting an item

  /** The conversion specification that the letter of a directive finds. */
  lemma SpecAtLetter(format: CString, i: nat, flags: seq<Flag>, width: Width, longs: nat, next: nat, l: Log,
                     args: seq<Arg>)
    requires WidthStands(format, i, width) && (width.Fixed? ==> width.w <= 0x7FFF_FFFF)
    requires i + WidthLength(width) < |format| && !IsDecimalDigit(format[i + WidthLength(width)])
    ensures var at := AfterWidth(width, i, Cursor(true, Spec(flags, 0, 0), next, l), args);
      EndWidth(format, AfterLongs(format, at, longs).conversion) == Spec(flags, WidthOf(width, args, next), longs)
  {
    if width.Fixed? {
      WidthIsRead(format, i, width.w);
    }
  }

  /** From behind the flags of a directive to its end. */
  lemma RunTail(format: CString, i: nat, h: nat, k: nat, item: Item, next: nat, l: Log, args: seq<Arg>)
    requires item.Directive? && WellFormed(item)
    requires h == i + WidthLength(item.width) && k == h + item.longs < |format|
    requires WidthStands(format, i, item.width) && LongsStand(format, h, item.longs)
    requires format[k] == Letter(item.conversion)
    ensures Run(format, i, k + 1, Cursor(true, Spec(item.flags, 0, 0), next, l), args) ==
      Outside(next + ArgsUsed(item), Meaning(item, args, next, l))
  {
    hide Run, Step;
    var here := Cursor(true, Spec(item.flags, 0, 0), next, l);
    var mid := AfterWidth(item.width, i, here, args);
    var end := AfterLongs(format, mid, item.longs);
    assert !IsDecimalDigit(format[h]);
    RunToLetter(format, i, h, k, item.width, item.longs, here, mid, end, args);
    SpecAtLetter(format, i, item.flags, item.width, item.longs, next, l, args);
    LastStep(format, k, item, next, l, end, args);
    RunStep(format, i, k, here, args);
  }

  /** The width and the length modifiers. */
  lemma RunToLetter(format: CString, i: nat, h: nat, k: nat, width: Width, longs: nat,
                    here: Cursor, mid: Cursor, end: Cursor, args: seq<Arg>)
    requires h == i + WidthLength(width) && k == h + longs <= |format|
    requires WidthStands(format, i, width) && (width.Fixed? ==> width.w > 0) && LongsStand(format, h, longs)
    requires here.inConversionSpec && here.conversion.minWidthChars == None && here.conversion.longModifiers == 0
    requires mid == AfterWidth(width, i, here, args) && end == AfterLongs(format, mid, longs)
    ensures Run(format, i, k, here, args) == end
  {
    hide Run, Step, LongsStand;
    RunWidth(format, i, width, here, args);
    RunLongs(format, h, longs, longs, mid, args);
    RunTwo(format, i, h, k, here, mid, end, args);
  }

  /** The letter of a directive. */
  lemma LastStep(format: CString, i: nat, item: Item, next: nat, l: Log, at: Cursor, args: seq<Arg>)
    requires item.Directive? && i < |format| && format[i] == Letter(item.conversion)
    requires at.inConversionSpec && at.next == next + ArgsForWidth(item.width) && at.log == l
    requires EndWidth(format, at.conversion) == Spec(item.flags, WidthOf(item.width, args, next), item.longs)
    ensures Step(format, i, at, args) == Outside(next + ArgsUsed(item), Meaning(item, args, next, l))
  {
    BodyIsConverted(item.conversion, item.flags, WidthOf(item.width, args, next), item.longs, args,
                    next + ArgsForWidth(item.width));
    hide Body, Converted, Field;
  }

  /** The percent sign that opens a conversion specification. */
  lemma RunOpening(format: CString, i: nat, j: nat, next: nat, l: Log, args: seq<Arg>)
    requires i < j <= |format| && format[i] == '%'
    ensures Run(format, i, j, Outside(next, l), args) ==
      Run(format, i + 1, j, Cursor(true, NO_CONVERSION, next, l), args)
  {
    assert Run(format, i, i, Outside(next, l), args) == Outside(next, l);
    RunSplit(format, i, i + 1, j, Outside(next, l), args);
  }

  /** The percent sign and the flags of a directive. */
  lemma RunHead(format: CString, i: nat, flags: seq<Flag>, j: nat, k: nat, next: nat, l: Log, args: seq<Arg>)
    requires ZeroOnlyOnce(flags) && j == i + 1 + |flags| && j <= k <= |format|
    requires format[i] == '%' && FlagsStand(format, i + 1, flags)
    ensures Run(format, i, k, Outside(next, l), args) ==
      Run(format, j, k, Cursor(true, Spec(flags, 0, 0), next, l), args)
  {
    RunOpening(format, i, k, next, l, args);
    RunFlags(format, i + 1, flags, |flags|, next, l, args);
    assert flags[..|flags|] == flags;
    RunSplit(format, i + 1, j, k, Cursor(true, NO_CONVERSION, next, l), args);
  }

  lemma RunDirective(format: CString, i: nat, item: Item, next: nat, l: Log, args: seq<Arg>)
    requires item.Directive? && WellFormed(item) && ItemStands(format, i, item)
    ensures Run(format, i, i + ItemLength(item), Outside(next, l), args) ==
            Outside(next + ArgsUsed(item), Meaning(item, args, next, l))
  {
    var j := i + 1 + |item.flags|;
    var h := j + WidthLength(item.width);
    var k := h + item.longs;
    RunHead(format, i, item.flags, j, k + 1, next, l, args);
    RunTail(format, j, h, k, item, next, l, args);
  }

  /** A conversion specification of one letter and no more. */
  lemma RunLetter(format: CString, i: nat, c: char, next: nat, l: Log, args: seq<Arg>)
    requires i + 2 <= |format| && format[i] == '%' && format[i + 1] == c && !IsDecimalDigit(c)
    ensures Run(format, i, i + 2, Outside(next, l), args) == Handle(c, NO_CONVERSION, args, next, l)
  {
    RunOpening(format, i, i + 2, next, l, args);
    assert Run(format, i + 1, i + 1, Cursor(true, NO_CONVERSION, next, l), args) ==
      Cursor(true, NO_CONVERSION, next, l);
  }

  lemma RunItem(format: CString, i: nat, item: Item, next: nat, l: Log, args: seq<Arg>)
    requires WellFormed(item) && ItemStands(format, i, item)
    ensures Run(format, i, i + ItemLength(item), Outside(next, l), args) ==
            Outside(next + ArgsUsed(item), Meaning(item, args, next, l))
  {
    match item
    case Literal(c) =>
      assert Run(format, i, i, Outside(next, l), args) == Outside(next, l);
    case Percent =>
      RunLetter(format, i, '%', next, l, args);
    case Pointer =>
      RunLetter(format, i, 'p', next, l, args);
      PointerField(args, next, l);
    case Directive(_, _, _, _) =>
      RunDirective(format, i, item, next, l, args);
  }

  lemma PointerField(args: seq<Arg>, next: nat, l: Log)
    ensures Handle('p', NO_CONVERSION, args, next, l) == Outside(next + 1, Meaning(Pointer, args, next, l))
  {
    assert "" + Digits(16, NumberArg(args, next)) == Digits(16, NumberArg(args, next));
  }

  // ---------------------------------------------------------------- whole formats

  predicate AllWellFormed(items: seq<Item>) {
    items == [] || (WellFormed(items[0]) && AllWellFormed(items[1..]))
  }

  lemma {:induction false} RunItems(format: CString, i: nat, items: seq<Item>, next: nat, l: Log, args: seq<Arg>)
    requires AllWellFormed(items) && Spells(format, i, items) && i <= |format|
    ensures Run(format, i, |format|, Outside(next, l), args).log == MeaningOf(items, args, next, l)
    decreases |items|
  {
    if items != [] {
      var j := i + ItemLength(items[0]);
      var mid := Outside(next + ArgsUsed(items[0]), Meaning(items[0], args, next, l));
      ItemsSpelled(format, i, items);
      FirstItem(format, i, items[0], next, l, args, j, mid);
      RunItems(format, j, items[1..], mid.next, mid.log, args);
    }
  }

  lemma ItemsSpelled(format: CString, i: nat, items: seq<Item>)
    requires items != [] && AllWellFormed(items) && Spells(format, i, items)
    ensures WellFormed(items[0]) && ItemStands(format, i, items[0]) && i + ItemLength(items[0]) <= |format|
    ensures AllWellFormed(items[1..]) && Spells(format, i + ItemLength(items[0]), items[1..])
  {
  }

  /** Behind its first item a format goes on from what that item leads to. */
  lemma FirstItem(format: CString, i: nat, item: Item, next: nat, l: Log, args: seq<Arg>, j: nat, mid: Cursor)
    requires WellFormed(item) && ItemStands(format, i, item)
    requires j == i + ItemLength(item) && mid == Outside(next + ArgsUsed(item), Meaning(item, args, next, l))
    ensures Run(format, i, |format|, Outside(next, l), args) == Run(format, j, |format|, mid, args)
  {
    RunItem(format, i, item, next, l, args);
    RunSplit(format, i, j, |format|, Outside(next, l), args);
  }

  /** Interpreting a format character by character does what the items that it spells mean, one after the other. */
  lemma RenderIsMeaning(format: CString, items: seq<Item>, args: seq<Arg>)
    requires AllWellFormed(items) && Spells(format, 0, items)
    ensures Render(format, args) == MeaningOf(items, args, 0, Empty)
  {
    RunItems(format, 0, items, 0, Empty, args);
  }
}
