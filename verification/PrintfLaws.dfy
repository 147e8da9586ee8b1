/** What truncation and counting amount to, for every format. */
module PrintfLaws {
  import opened Numerals
  import opened Strings
  import opened PrintfSpec

  /** The text of a call without a limit. */
  function TextOf(l: Log): string {
    Written(NO_MAX_OUTPUT, l)
  }

  predicate NoneSkipped(l: Log) {
    match l
    case Empty => true
    case Put(k, _) => NoneSkipped(k)
    case Skipped(_) => false
  }

  function Min(a: nat, b: nat): nat {
    if a < b then a else b
  }

  /** How many characters a limit lets through. */
  function LimitOf(size: nat): nat {
    if size == 0 then 0 else size - 1
  }

  // ---------------------------------------------------------------- truncation

  /** The count is the length of the text if and only if no character was only counted. */
  lemma {:induction false} CountIsLength(l: Log)
    ensures |TextOf(l)| <= Count(l)
    ensures |TextOf(l)| == Count(l) <==> NoneSkipped(l)
  {
    match l
    case Empty =>
    case Put(k, _) => CountIsLength(k);
    case Skipped(k) => CountIsLength(k);
  }

  /** Under a limit, what is written is the beginning of the text. */
  lemma {:induction false} LimitedIsPrefix(size: nat, l: Log)
    ensures |Written(MaxOutput(true, size), l)| <= Min(Count(l), LimitOf(size))
    ensures NoneSkipped(l) ==>
      |TextOf(l)| == Count(l) && Written(MaxOutput(true, size), l) == TextOf(l)[..Min(Count(l), LimitOf(size))]
  {
    match l
    case Empty =>
    case Put(k, _) =>
      LimitedIsPrefix(size, k);
      CountIsLength(l);
    case Skipped(k) => LimitedIsPrefix(size, k);
  }

  // ---------------------------------------------------------------- padding

  function Padding(zero: bool, n: int): (padding: string)
    ensures |padding| == if n < 0 then 0 else n
  {
    if n <= 0 then "" else Padding(zero, n - 1) + [if zero then '0' else ' ']
  }

  lemma {:induction false} TextOfChars(l: Log, s: string, n: nat)
    requires n <= |s|
    ensures TextOf(Chars(l, s, 0, n)) == TextOf(l) + s[..n]
  {
    if n > 0 {
      TextOfChars(l, s, n - 1);
      assert s[..n] == s[..n - 1] + [s[n - 1]];
    }
  }

  lemma {:induction false} TextOfPad(l: Log, zero: bool, n: int)
    ensures TextOf(Pad(l, zero, n)) == TextOf(l) + Padding(zero, n)
  {
    if n > 0 {
      TextOfPad(l, zero, n - 1);
    }
  }

  /**
   The text of a field: the body and as many characters of padding as it is short of the
   width, before it or behind it.
   */
  lemma FieldIsPadded(l: Log, conv: ConversionSpec, body: string)
    requires conv.minWidth >= 0
    ensures var padding := Padding(conv.zeroPad, conv.minWidth - |body|);
      TextOf(Field(l, conv, body)) ==
      if conv.leftJustify then TextOf(l) + body + padding else TextOf(l) + padding + body
    ensures |TextOf(Field(l, conv, body))| ==
      |TextOf(l)| + if |body| < conv.minWidth then conv.minWidth else |body|
  {
    assert body[..|body|] == body;
    if conv.leftJustify {
      TextOfChars(l, body, |body|);
      TextOfPad(PutAll(l, body), conv.zeroPad, conv.minWidth - |body|);
    } else {
      TextOfPad(l, conv.zeroPad, conv.minWidth - |body|);
      TextOfChars(Pad(l, conv.zeroPad, conv.minWidth - |body|), body, |body|);
    }
  }

  /** The number whose numeral a conversion puts, without its sign. */
  function Magnitude(conversion: Conversion, conv: ConversionSpec, args: seq<Arg>, k: nat): nat {
    if conversion == Signed && SignedArg(conv, args, k) < 0 then -SignedArg(conv, args, k)
    else if conversion == Signed then SignedArg(conv, args, k)
    else UnsignedArg(conv, args, k)
  }

  function BaseOf(conversion: Conversion): Base {
    match conversion
    case Hex => 16
    case Binary => 2
    case _ => 10
  }

  /** The characters before the numeral: a sign, or the prefix of the alternative form. */
  function Lead(conversion: Conversion, conv: ConversionSpec, args: seq<Arg>, k: nat): nat {
    match conversion
    case Signed => if SignedArg(conv, args, k) < 0 then 1 else 0
    case Unsigned => 0
    case _ => if conv.alternative then 2 else 0
  }

  /**
   How many characters a number takes in any base: it fits into `n` digits exactly when it is
   below the n-th power of the base. So 32 bits never take more than 8, 32 or 10 digits with x,
   b or u, and 64 bits never more than 16, 64 or 20.
   */
  lemma LengthOfBody(conversion: Conversion, conv: ConversionSpec, args: seq<Arg>, k: nat, n: nat)
    requires conversion != Char && conversion != String && n > 0
    ensures |Body(conversion, conv, args, k)| <= Lead(conversion, conv, args, k) + n <==>
            Magnitude(conversion, conv, args, k) < Pow(BaseOf(conversion), n)
    ensures |Body(conversion, conv, args, k)| <= Lead(conversion, conv, args, k) + MostDigits(conversion, Is32Bit(conv))
  {
    LengthOfDigits(BaseOf(conversion), Magnitude(conversion, conv, args, k), n);
    LengthOfDigits(BaseOf(conversion), Magnitude(conversion, conv, args, k), MostDigits(conversion, Is32Bit(conv)));
    PowersOfBases();
  }

  function MostDigits(conversion: Conversion, is32Bit: bool): (n: nat)
    ensures n > 0
  {
    match conversion
    case Hex => if is32Bit then 8 else 16
    case Binary => if is32Bit then 32 else 64
    case _ => if is32Bit then 10 else 20
  }

  lemma PowersOfBases()
    ensures Pow(16, 8) == Pow(2, 32) == 0x1_0000_0000 < Pow(10, 10)
    ensures Pow(16, 16) == Pow(2, 64) == 0x1_0000_0000_0000_0000 < Pow(10, 20)
  {
    assert Pow(16, 4) == 0x1_0000 && Pow(2, 8) == 0x100 && Pow(10, 5) == 100_000;
    PowAdd(16, 4, 4);
    PowAdd(16, 8, 8);
    PowAdd(2, 8, 8);
    PowAdd(2, 16, 16);
    PowAdd(2, 32, 32);
    PowAdd(10, 5, 5);
    PowAdd(10, 10, 10);
  }

  // ---------------------------------------------------------------- when a character is only counted

  /** At index `i` of the format, a conversion is done under a negative width, and there is something to print. */
  predicate SkipsAt(format: CString, args: seq<Arg>, i: nat)
    requires i < |format|
  {
    var at := Run(format, 0, i, Outside(0, Empty), args);
    var conv := EndWidth(format, at.conversion);
    && at.inConversionSpec && conv.minWidth < 0
    && ConversionOf(format[i]).Some? && Body(ConversionOf(format[i]).value, conv, args, at.next) != ""
  }

  predicate Skips(format: CString, args: seq<Arg>) {
    exists i :: 0 <= i < |format| && SkipsAt(format, args, i)
  }

  lemma {:induction false} CharsSkip(l: Log, s: string, width: int, n: nat)
    requires n <= |s|
    ensures NoneSkipped(Chars(l, s, width, n)) <==> NoneSkipped(l) && (width == 0 || n == 0)
  {
    if n > 0 {
      CharsSkip(l, s, width, n - 1);
    }
  }

  lemma {:induction false} PadSkipsNothing(l: Log, zero: bool, n: int)
    ensures NoneSkipped(Pad(l, zero, n)) <==> NoneSkipped(l)
  {
    if n > 0 {
      PadSkipsNothing(l, zero, n - 1);
    }
  }

  lemma FieldSkips(l: Log, conv: ConversionSpec, body: string)
    ensures NoneSkipped(Field(l, conv, body)) <==> NoneSkipped(l) && (conv.minWidth >= 0 || body == "")
  {
    if conv.minWidth < 0 {
      CharsSkip(l, body, conv.minWidth, |body|);
    } else if conv.leftJustify {
      CharsSkip(l, body, 0, |body|);
      PadSkipsNothing(PutAll(l, body), conv.zeroPad, conv.minWidth - |body|);
    } else {
      PadSkipsNothing(l, conv.zeroPad, conv.minWidth - |body|);
      CharsSkip(Pad(l, conv.zeroPad, conv.minWidth - |body|), body, 0, |body|);
    }
  }

  lemma StepSkips(format: CString, i: nat, at: Cursor, args: seq<Arg>)
    requires i < |format|
    ensures var conv := EndWidth(format, at.conversion);
      NoneSkipped(Step(format, i, at, args).log) <==>
      && NoneSkipped(at.log)
      && !(&& at.inConversionSpec && conv.minWidth < 0 && ConversionOf(format[i]).Some?
           && Body(ConversionOf(format[i]).value, conv, args, at.next) != "")
  {
    var c := format[i];
    var conv := EndWidth(format, at.conversion);
    if at.inConversionSpec {
      if ConversionOf(c).Some? {
        FieldSkips(at.log, conv, Body(ConversionOf(c).value, conv, args, at.next));
      } else if c == 'p' {
        var pointer := PointerConversion(conv);
        FieldSkips(Put(Put(at.log, '0'), 'x'), pointer, Body(Hex, pointer, args, at.next));
      }
    }
  }

  lemma {:induction false} RunSkips(format: CString, args: seq<Arg>, j: nat)
    requires j <= |format|
    ensures NoneSkipped(Run(format, 0, j, Outside(0, Empty), args).log) <==> forall i :: 0 <= i < j ==>
      !SkipsAt(format, args, i)
  {
    hide Body, Field, Step;
    if j > 0 {
      RunSkips(format, args, j - 1);
      var at := Run(format, 0, j - 1, Outside(0, Empty), args);
      StepSkips(format, j - 1, at, args);
      assert NoneSkipped(Run(format, 0, j, Outside(0, Empty), args).log) <==>
        NoneSkipped(at.log) && !SkipsAt(format, args, j - 1);
    }
  }

  /** A call counts a character that it does not print if and only if it uses a negative width for something. */
  lemma CountsWhatItPrints(format: CString, args: seq<Arg>)
    ensures |TextOf(Render(format, args))| == Count(Render(format, args)) <==> !Skips(format, args)
    ensures NoneSkipped(Render(format, args)) <==> !Skips(format, args)
  {
    CountIsLength(Render(format, args));
    RunSkips(format, args, |format|);
  }
}
