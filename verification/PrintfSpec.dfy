/** What the printf family prints: the events that a format and its arguments give rise to. */
module PrintfSpec {
  import opened Prelude
  import opened Numerals
  import opened Strings
  import opened Parse

  /** A variable argument: a 64-bit register, or a pointer to a string. */
  datatype Arg = Number(w: Word) | Text(s: CString)

  /** A missing or mistyped argument, undefined in C, reads as 0 or as the empty string. */
  function NumberArg(args: seq<Arg>, k: nat): Word {
    if k < |args| && args[k].Number? then args[k].w else 0
  }

  function TextArg(args: seq<Arg>, k: nat): CString {
    if k < |args| && args[k].Text? then args[k].s else ""
  }

  /** `minWidthChars` is the index in the format of the first digit of the width. */
  datatype ConversionSpec = ConversionSpec(
    longModifiers: nat, zeroPad: bool, leftJustify: bool, alternative: bool,
    minWidthChars: Option<nat>, minWidth: int)

  const NO_CONVERSION: ConversionSpec := ConversionSpec(0, false, false, false, None, 0)

  // ---------------------------------------------------------------- output

  /** The characters that a call has put, and those that it has only counted, in order. */
  datatype Log = Empty | Put(log: Log, c: char) | Skipped(log: Log)

  function Count(l: Log): nat {
    match l
    case Empty => 0
    case Put(k, _) => Count(k) + 1
    case Skipped(k) => Count(k) + 1
  }

  datatype MaxOutput = MaxOutput(enabled: bool, maximum: nat)

  const NO_MAX_OUTPUT: MaxOutput := MaxOutput(false, 0)

  /** putchar_maybe_max lets a character through when this many were counted before it. */
  predicate Allowed(max: MaxOutput, printed: nat) {
    !max.enabled || (max.maximum != 0 && max.maximum - 1 > printed)
  }

  /** What reaches the target. */
  function Written(max: MaxOutput, l: Log): string {
    match l
    case Empty => ""
    case Put(k, c) => Written(max, k) + (if Allowed(max, Count(k)) then [c] else "")
    case Skipped(k) => Written(max, k)
  }

  /** putchar_maybe_minwidth: while a width is set, characters are only counted. */
  function Character(l: Log, c: char, width: int): Log {
    if width == 0 then Put(l, c) else Skipped(l)
  }

  /** The first `n` characters of a text. */
  function Chars(l: Log, s: string, width: int, n: nat): Log
    requires n <= |s|
  {
    if n == 0 then l else Character(Chars(l, s, width, n - 1), s[n - 1], width)
  }

  function PutAll(l: Log, s: string): Log {
    Chars(l, s, 0, |s|)
  }

  function Pad(l: Log, zero: bool, n: int): Log {
    if n <= 0 then l else Put(Pad(l, zero, n - 1), if zero then '0' else ' ')
  }

  // ---------------------------------------------------------------- conversions

  datatype Conversion = Char | String | Hex | Binary | Signed | Unsigned

  predicate Is32Bit(conv: ConversionSpec) {
    conv.longModifiers == 0
  }

  function UnsignedArg(conv: ConversionSpec, args: seq<Arg>, k: nat): Word {
    if Is32Bit(conv) then NumberArg(args, k) % 0x1_0000_0000 else NumberArg(args, k)
  }

  function SignedArg(conv: ConversionSpec, args: seq<Arg>, k: nat): int {
    if Is32Bit(conv) then ToInt32(NumberArg(args, k)) else ToInt64(NumberArg(args, k))
  }

  /** The text of a converted argument before any padding. */
  function Body(conversion: Conversion, conv: ConversionSpec, args: seq<Arg>, k: nat): string {
    match conversion
    case Char => [(NumberArg(args, k) % 256) as char]
    case String => TextArg(args, k)
    case Hex => (if conv.alternative then "0x" else "") + Digits(16, UnsignedArg(conv, args, k))
    case Binary => (if conv.alternative then "0b" else "") + Digits(2, UnsignedArg(conv, args, k))
    case Signed => Decimal(SignedArg(conv, args, k))
    case Unsigned => Digits(10, UnsignedArg(conv, args, k))
  }

  /** min_width_call. Under a negative width a body is counted, but not printed. */
  function Field(l: Log, conv: ConversionSpec, body: string): Log {
    if conv.minWidth < 0 then Chars(l, body, conv.minWidth, |body|)
    else if conv.leftJustify then Pad(PutAll(l, body), conv.zeroPad, conv.minWidth - |body|)
    else PutAll(Pad(l, conv.zeroPad, conv.minWidth - |body|), body)
  }

  /** The conversion specification that %p sets up. */
  function PointerConversion(conv: ConversionSpec): ConversionSpec {
    conv.(longModifiers := 1, minWidth := 16, zeroPad := true)
  }

  // ---------------------------------------------------------------- formats

  /** Where the interpretation of a format stands between two of its characters. */
  datatype Cursor = Cursor(inConversionSpec: bool, conversion: ConversionSpec, next: nat, log: Log)

  /** Between two conversion specifications, with `next` arguments consumed. */
  function Outside(next: nat, l: Log): Cursor {
    Cursor(false, NO_CONVERSION, next, l)
  }

  function ConversionOf(c: char): Option<Conversion> {
    match c
    case 'c' => Some(Char)
    case 's' => Some(String)
    case 'x' => Some(Hex)
    case 'b' => Some(Binary)
    case 'i' => Some(Signed)
    case 'd' => Some(Signed)
    case 'u' => Some(Unsigned)
    case _ => None
  }

  /** handle_conversion_spec. */
  function Handle(c: char, conv: ConversionSpec, args: seq<Arg>, next: nat, l: Log): Cursor {
    if ConversionOf(c).Some? then
      Outside(next + 1, Field(l, conv, Body(ConversionOf(c).value, conv, args, next)))
    else match c
      case '#' => Cursor(true, conv.(alternative := true), next, l)
      case 'l' => Cursor(true, conv.(longModifiers := (conv.longModifiers + 1) % 256), next, l)
      case '*' => Cursor(true, conv.(minWidth := ToInt32(NumberArg(args, next))), next + 1, l)
      case '-' => Cursor(true, conv.(leftJustify := true), next, l)
      case '%' => Outside(next, Put(l, '%'))
      case 'p' =>
        var pointer := PointerConversion(conv);
        Outside(next + 1, Field(Put(Put(l, '0'), 'x'), pointer, Body(Hex, pointer, args, next)))
      case _ => Cursor(true, conv, next, l)
  }

  /** The width that the digits from index `j` on denote. */
  function WidthAt(format: CString, j: nat): int {
    if j <= |format| then ToInt32(ToInt64(DenotedAt(format, j))) else 0
  }

  function EndWidth(format: CString, conv: ConversionSpec): ConversionSpec {
    match conv.minWidthChars
    case None => conv
    case Some(j) => conv.(minWidth := WidthAt(format, j), minWidthChars := None)
  }

  /** One character of the format. */
  function Step(format: CString, i: nat, at: Cursor, args: seq<Arg>): Cursor
    requires i < |format|
  {
    var c := format[i];
    var conv := at.conversion;
    if !at.inConversionSpec then
      if c == '%' then at.(inConversionSpec := true) else at.(log := Put(at.log, c))
    else if !conv.zeroPad && conv.minWidthChars == None && c == '0' then
      at.(conversion := conv.(zeroPad := true))
    else if IsDecimalDigit(c) then
      at.(conversion := if conv.minWidthChars == None then conv.(minWidthChars := Some(i)) else conv)
    else
      Handle(c, EndWidth(format, conv), args, at.next, at.log)
  }

  /** The characters of the format from `i` up to `j`. */
  function Run(format: CString, i: nat, j: nat, at: Cursor, args: seq<Arg>): Cursor
    requires i <= j <= |format|
    decreases j - i, 0
  {
    if i == j then at else RunOn(format, i, j - 1, at, args)
  }

  /** ... and the character at `j`. */
  function RunOn(format: CString, i: nat, j: nat, at: Cursor, args: seq<Arg>): Cursor
    requires i <= j < |format|
    decreases j - i, 1
  {
    Step(format, j, Run(format, i, j, at, args), args)
  }

  /** All that a format gives rise to. */
  function Render(format: CString, args: seq<Arg>): Log {
    Run(format, 0, |format|, Outside(0, Empty), args).log
  }

  // ---------------------------------------------------------------- logs only grow

  /** `b` is `a` or goes on from it. */
  predicate Extends(a: Log, b: Log) {
    a == b || match b
      case Empty => false
      case Put(k, _) => Extends(a, k)
      case Skipped(k) => Extends(a, k)
  }

  lemma {:induction false} ExtendsFurther(a: Log, b: Log, c: Log)
    requires Extends(a, b) && Extends(b, c)
    ensures Extends(a, c)
  {
    if b != c {
      match c
      case Put(k, _) => ExtendsFurther(a, b, k);
      case Skipped(k) => ExtendsFurther(a, b, k);
    }
  }

  lemma {:induction false} WrittenGrows(max: MaxOutput, a: Log, b: Log)
    requires Extends(a, b)
    ensures |Written(max, a)| <= |Written(max, b)|
  {
    if a != b {
      match b
      case Put(k, _) => WrittenGrows(max, a, k);
      case Skipped(k) => WrittenGrows(max, a, k);
    }
  }

  lemma {:induction false} CharsExtend(l: Log, s: string, width: int, m: nat, n: nat)
    requires m <= n <= |s|
    ensures Extends(Chars(l, s, width, m), Chars(l, s, width, n))
    ensures Extends(l, Chars(l, s, width, n))
    decreases n
  {
    if m < n {
      CharsExtend(l, s, width, m, n - 1);
    } else if n > 0 {
      CharsExtend(l, s, width, m - 1, n - 1);
    }
  }

  lemma {:induction false} PadExtends(l: Log, zero: bool, m: int, n: int)
    requires m <= n
    ensures Extends(Pad(l, zero, m), Pad(l, zero, n))
  {
    if m < n && n > 0 {
      PadExtends(l, zero, m, n - 1);
    }
  }

  lemma FieldExtends(l: Log, conv: ConversionSpec, body: string)
    ensures Extends(l, Field(l, conv, body))
  {
    var padding := conv.minWidth - |body|;
    if conv.minWidth < 0 {
      CharsExtend(l, body, conv.minWidth, 0, |body|);
    } else if conv.leftJustify {
      CharsExtend(l, body, 0, 0, |body|);
      PadExtends(PutAll(l, body), conv.zeroPad, 0, if padding < 0 then 0 else padding);
      ExtendsFurther(l, PutAll(l, body), Field(l, conv, body));
    } else {
      var padded := Pad(l, conv.zeroPad, padding);
      PadExtends(l, conv.zeroPad, 0, if padding < 0 then 0 else padding);
      CharsExtend(padded, body, 0, 0, |body|);
      ExtendsFurther(l, padded, Field(l, conv, body));
    }
  }

  lemma StepExtends(format: CString, i: nat, at: Cursor, args: seq<Arg>)
    requires i < |format|
    ensures Extends(at.log, Step(format, i, at, args).log)
  {
    var c := format[i];
    var conv := EndWidth(format, at.conversion);
    if at.inConversionSpec {
      if ConversionOf(c).Some? {
        FieldExtends(at.log, conv, Body(ConversionOf(c).value, conv, args, at.next));
      } else if c == 'p' {
        var pointer := PointerConversion(conv);
        var prefixed := Put(Put(at.log, '0'), 'x');
        FieldExtends(prefixed, pointer, Body(Hex, pointer, args, at.next));
        ExtendsFurther(at.log, prefixed, Field(prefixed, pointer, Body(Hex, pointer, args, at.next)));
      }
    }
  }

  lemma RunStep(format: CString, i: nat, j: nat, at: Cursor, args: seq<Arg>)
    requires i <= j < |format|
    ensures Run(format, i, j + 1, at, args) == Step(format, j, Run(format, i, j, at, args), args)
  {
  }

  lemma {:induction false} RunExtends(format: CString, i: nat, args: seq<Arg>)
    requires i <= |format|
    ensures Extends(Run(format, 0, i, Outside(0, Empty), args).log, Render(format, args))
    decreases |format| - i
  {
    if i < |format| {
      var at := Run(format, 0, i, Outside(0, Empty), args);
      RunExtends(format, i + 1, args);
      RunStep(format, 0, i, Outside(0, Empty), args);
      StepExtends(format, i, at, args);
      ExtendsFurther(at.log, Step(format, i, at, args).log, Render(format, args));
    }
  }

  /** While a width is set, printing changes the count and nothing else. */
  lemma {:induction false} CharsSkipped(max: MaxOutput, l: Log, s: string, width: int, n: nat)
    requires width != 0 && n <= |s|
    ensures Written(max, Chars(l, s, width, n)) == Written(max, l)
    ensures Count(Chars(l, s, width, n)) == Count(l) + n
  {
    if n > 0 {
      CharsSkipped(max, l, s, width, n - 1);
    }
  }

  lemma {:induction false} CountOfChars(l: Log, s: string, width: int, n: nat)
    requires n <= |s|
    ensures Count(Chars(l, s, width, n)) == Count(l) + n
  {
    if n > 0 {
      CountOfChars(l, s, width, n - 1);
    }
  }
}
