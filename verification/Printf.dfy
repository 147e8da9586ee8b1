/** The printf engine as it runs: a state with an output pointer, a count and an argument cursor. */
module Printf {
  import opened Prelude
  import opened Numerals
  import opened Strings
  import opened Parse
  import opened PrintfSpec

  lemma PowersOf2()
    ensures Pow(16, 8) == INT_MODULUS && Pow(2, 32) == INT_MODULUS
    ensures Pow(16, 16) == WORD_MODULUS && Pow(2, 64) == WORD_MODULUS
  {
    assert Pow(16, 2) == 0x100 && Pow(2, 4) == 0x10;
    PowAdd(16, 2, 2);
    PowAdd(16, 4, 4);
    PowAdd(16, 8, 8);
    PowAdd(2, 4, 4);
    PowAdd(2, 8, 8);
    PowAdd(2, 16, 16);
    PowAdd(2, 32, 32);
  }

  lemma Magnitudes(w: Word)
    ensures var v := ToInt64(w);
      ToInt64(v * -1) % WORD_MODULUS == (if v < 0 then -v else ToInt64(v * -1) % WORD_MODULUS) && (v >= 0 ==>
        v % WORD_MODULUS == v)
    ensures var v := ToInt32(w);
      ToInt32(v * -1) % INT_MODULUS == (if v < 0 then -v else ToInt32(v * -1) % INT_MODULUS) && (v >= 0 ==>
        v % INT_MODULUS == v)
  {
  }

  lemma PowersOf10()
    ensures Pow(10, 9) == 1_000_000_000 && Pow(10, 10) == 10_000_000_000
    ensures Pow(10, 19) == 10_000_000_000_000_000_000 && Pow(10, 20) == 100_000_000_000_000_000_000
  {
    assert Pow(10, 5) == 100_000;
    assert Pow(10, 14) == 100_000_000_000_000;
  }

  class PrintState {
    const toBuffer: bool
    const buffer: array<char>
    const arguments: seq<Arg>
    const maxOutput: MaxOutput
    /** How far the output pointer has moved into the buffer. */
    var output: nat
    /** What was sent to the stream. */
    var sent: string
    var inConversionSpec: bool
    var conversion: ConversionSpec
    var printed: nat
    /** How many arguments were consumed. */
    var next: nat
    /** The characters put or counted so far, and those that the whole call will put or count. */
    ghost var log: Log
    ghost const plan: Log
    /** The contents of the buffer at the start. */
    ghost const original: seq<char>

    /** The target holds what was written, and the buffer has room for what is still to come. */
    ghost predicate Valid()
      reads this, buffer
    {
      && |original| == buffer.Length && output <= buffer.Length && buffer[output..] == original[output..]
      && (if toBuffer then buffer[..output] else sent) == Written(maxOutput, log)
      && printed == Count(log)
      && (toBuffer ==> |Written(maxOutput, plan)| <= buffer.Length)
    }

    constructor (toBuffer: bool, buffer: array<char>, arguments: seq<Arg>, maxOutput: MaxOutput, ghost plan: Log)
      requires toBuffer ==> |Written(maxOutput, plan)| <= buffer.Length
      ensures Valid() && At() == Outside(0, Empty) && original == buffer[..] && this.plan == plan
      ensures this.toBuffer == toBuffer && this.buffer == buffer && this.arguments == arguments &&
        this.maxOutput == maxOutput
    {
      this.toBuffer := toBuffer;
      this.buffer := buffer;
      this.arguments := arguments;
      this.maxOutput := maxOutput;
      output := 0;
      sent := "";
      inConversionSpec := false;
      conversion := NO_CONVERSION;
      printed := 0;
      next := 0;
      log := Empty;
      this.plan := plan;
      original := buffer[..];
    }

    ghost function At(): Cursor
      reads this
    {
      Cursor(inConversionSpec, conversion, next, log)
    }

    /** PrintTarget_putchar. */
    method TargetPutchar(c: char)
      requires toBuffer ==> output < buffer.Length
      modifies `output, `sent, buffer
      ensures toBuffer ==> output == old(output) + 1 && buffer[..] == old(buffer[..])[old(output) := c]
      ensures !toBuffer ==> sent == old(sent) + [c] && output == old(output) && buffer[..] == old(buffer[..])
    {
      if toBuffer {
        buffer[output] := c;
        output := output + 1;
      } else {
        sent := sent + [c];
      }
    }

    method PutcharMaybeMax(c: char)
      requires Valid() && Extends(Put(log, c), plan)
      modifies `output, `sent, `printed, `log, buffer
      ensures Valid() && log == Put(old(log), c)
    {
      WrittenGrows(maxOutput, Put(log, c), plan);
      if !maxOutput.enabled || (maxOutput.maximum != 0 && maxOutput.maximum - 1 > printed) {
        TargetPutchar(c);
        assert toBuffer ==> buffer[..output] == old(buffer[..output]) + [c];
      }
      printed := printed + 1;
      log := Put(log, c);
    }

    /** Of a body to be printed from `start` on, the first `done` characters are out. */
    ghost predicate Printing(start: Log, body: string, done: nat)
      reads this, buffer
    {
      && Valid() && done <= |body|
      && log == Chars(start, body, conversion.minWidth, done)
      && (conversion.minWidth == 0 ==> Extends(PutAll(start, body), plan))
    }

    method PutcharMaybeMinWidth(c: char, ghost start: Log, ghost body: string, ghost done: nat)
      requires Printing(start, body, done) && done < |body| && c == body[done]
      modifies `output, `sent, `printed, `log, buffer
      ensures Printing(start, body, done + 1)
    {
      hide Extends;
      if conversion.minWidth == 0 {
        CharsExtend(start, body, 0, done + 1, |body|);
        ExtendsFurther(Put(log, c), PutAll(start, body), plan);
        PutcharMaybeMax(c);
      } else {
        printed := printed + 1;
        log := Skipped(log);
      }
    }

    /** va_arg of an integer type. */
    method NextNumber() returns (w: Word)
      modifies `next
      ensures w == NumberArg(arguments, old(next)) && next == old(next) + 1
    {
      w := NumberArg(arguments, next);
      next := next + 1;
    }

    method PrintChar(ghost start: Log, ghost body: string)
      requires Printing(start, body, 0) && body == Body(Char, conversion, arguments, next)
      modifies `output, `sent, `printed, `next, `log, buffer
      ensures Printing(start, body, |body|) && next == old(next) + 1
    {
      var ch := NextNumber();
      PutcharMaybeMinWidth((ch % 256) as char, start, body, 0);
    }

    method PrintString(ghost start: Log, ghost body: string)
      requires Printing(start, body, 0) && body == Body(String, conversion, arguments, next)
      modifies `output, `sent, `printed, `next, `log, buffer
      ensures Printing(start, body, |body|) && next == old(next) + 1
    {
      var str := TextArg(arguments, next);
      next := next + 1;
      var index := 0;
      while CharAt(str, index) != '\0'
        invariant 0 <= index <= |str| && Printing(start, body, index) && next == old(next) + 1
        decreases |str| - index
      {
        PutcharMaybeMinWidth(str[index], start, body, index);
        index := index + 1;
      }
    }

    /** The two characters that the alternative form puts before a number. */
    method PrintPrefix(x: char, ghost start: Log, ghost body: string)
      requires Printing(start, body, 0) && (conversion.alternative ==> |body| >= 2 && body[0] == '0' && body[1] == x)
      modifies `output, `sent, `printed, `log, buffer
      ensures Printing(start, body, if conversion.alternative then 2 else 0)
    {
      if conversion.alternative {
        PutcharMaybeMinWidth('0', start, body, 0);
        PutcharMaybeMinWidth(x, start, body, 1);
      }
    }

    /** Puts the digit at place `i` of a number that follows `skip` other characters; the places before it are done. */
    method PutPlace(c: char, ghost start: Log, ghost body: string, ghost skip: nat, ghost b: Base, ghost n: nat,
                    ghost i: nat)
      requires skip <= |body| && body[skip..] == Digits(b, n)
      requires Printing(start, body, skip + |Produced(b, n, i + 1)|)
      requires c == DigitChar(High(b, n, i) % b) && Produced(b, n, i) == Produced(b, n, i + 1) + [c]
      modifies `output, `sent, `printed, `log, buffer
      ensures Printing(start, body, skip + |Produced(b, n, i)|)
    {
      ghost var done := |Produced(b, n, i + 1)|;
      ProducedIsPrefix(b, n, i);
      SuffixAt(body, skip, done);
      assert Produced(b, n, i)[done] == c;
      PutcharMaybeMinWidth(c, start, body, skip + done);
    }

    /** The loop over the places of a number that print_hex and print_binary share. */
    method PrintPlaces(b: Base, value: nat, places: nat, ghost start: Log, ghost body: string, ghost skip: nat)
      requires 0 < places && value < Pow(b, places)
      requires Printing(start, body, skip) && body[skip..] == Digits(b, value)
      modifies `output, `sent, `printed, `log, buffer
      ensures Printing(start, body, |body|)
    {
      var started := false;
      for place := places downto 0
        invariant Printing(start, body, skip + |Produced(b, value, place)|)
        invariant started <==> Produced(b, value, place) != ""
      {
        PlaceStep(b, value, place);
        var placeValue := High(b, value, place) % b;
        if placeValue == 0 && !started && place != 0 {
          continue;
        }
        started := true;
        var ascii := if placeValue <= 9 then '0' + placeValue as char else 'a' + (placeValue - 10) as char;
        PutPlace(ascii, start, body, skip, b, value, place);
      }
    }

    method PrintHex(ghost start: Log, ghost body: string)
      requires Printing(start, body, 0) && body == Body(Hex, conversion, arguments, next)
      modifies `output, `sent, `printed, `next, `log, buffer
      ensures Printing(start, body, |body|) && next == old(next) + 1
    {
      var value := NextNumber();
      PowersOf2();
      PrintPrefix('x', start, body);
      ghost var skip := if conversion.alternative then 2 else 0;
      if Is32Bit(conversion) {
        PrintPlaces(16, value % INT_MODULUS, 8, start, body, skip);
      } else {
        PrintPlaces(16, value, 16, start, body, skip);
      }
    }

    method PrintBinary(ghost start: Log, ghost body: string)
      requires Printing(start, body, 0) && body == Body(Binary, conversion, arguments, next)
      modifies `output, `sent, `printed, `next, `log, buffer
      ensures Printing(start, body, |body|) && next == old(next) + 1
    {
      var value := NextNumber();
      PowersOf2();
      PrintPrefix('b', start, body);
      ghost var skip := if conversion.alternative then 2 else 0;
      if Is32Bit(conversion) {
        PrintPlaces(2, value % INT_MODULUS, 32, start, body, skip);
      } else {
        PrintPlaces(2, value, 64, start, body, skip);
      }
    }

    /** print_unsigned_uint32_t and print_unsigned_uint64_t, which differ in the starting divisor. */
    method PrintUnsignedFrom(value: nat, startingDivisor: nat, ghost places: nat,
                             ghost start: Log, ghost body: string, ghost skip: nat)
      requires startingDivisor == Pow(10, places) && value < Pow(10, places + 1)
      requires Printing(start, body, skip) && body[skip..] == Digits(10, value)
      modifies `output, `sent, `printed, `log, buffer
      ensures Printing(start, body, |body|)
    {
      if value == 0 {
        SuffixAt(body, skip, 0);
        PutcharMaybeMinWidth('0', start, body, skip);
      } else {
        PrintPositive(value, startingDivisor, places, start, body, skip);
      }
    }

    /** The loop over the decimal divisors. */
    method PrintPositive(value: nat, startingDivisor: nat, ghost places: nat,
                         ghost start: Log, ghost body: string, ghost skip: nat)
      requires startingDivisor == Pow(10, places) && 0 < value < Pow(10, places + 1)
      requires Printing(start, body, skip) && body[skip..] == Digits(10, value)
      modifies `output, `sent, `printed, `log, buffer
      ensures Printing(start, body, |body|)
    {
      var divisor := startingDivisor;
      var rest := value;
      var started := false;
      ghost var j: nat := places + 1;
      DivUnique(value, Pow(10, j), 0, value);
      while divisor > 0
        invariant divisor == (if j == 0 then 0 else Pow(10, j - 1)) && rest == value % Pow(10, j)
        invariant Printing(start, body, skip + |Produced(10, value, j)|)
        invariant started <==> Produced(10, value, j) != ""
        decreases divisor
      {
        j := j - 1;
        rest, started := PrintDecimalPlace(divisor, rest, started, value, j, start, body, skip);
        NextDivisor(j);
        divisor := divisor / 10;
      }
    }

    /** One turn of that loop. */
    method PrintDecimalPlace(divisor: nat, rest: nat, started: bool, ghost value: nat, ghost j: nat,
                             ghost start: Log, ghost body: string, ghost skip: nat)
      returns (remaining: nat, begun: bool)
      requires value > 0 && divisor == Pow(10, j) && rest == value % Pow(10, j + 1)
      requires started <==> Produced(10, value, j + 1) != ""
      requires Printing(start, body, skip + |Produced(10, value, j + 1)|) && body[skip..] == Digits(10, value)
      modifies `output, `sent, `printed, `log, buffer
      ensures Printing(start, body, skip + |Produced(10, value, j)|)
      ensures remaining == value % Pow(10, j) && (begun <==> Produced(10, value, j) != "")
    {
      DecimalTurn(value, j, rest, started);
      remaining, begun := rest, started;
      if rest >= divisor {
        begun := true;
        var digit: nat;
        digit, remaining := TakeDigit(rest, divisor, value, j);
        PutPlace('0' + digit as char, start, body, skip, 10, value, j);
      } else if started {
        PutPlace('0', start, body, skip, 10, value, j);
      }
    }

    /** The digit of a place, and what remains for the places after it. */
    static method TakeDigit(rest: nat, divisor: nat, ghost value: nat, ghost j: nat)
      returns (digit: nat, remainder: nat)
      requires value > 0 && divisor == Pow(10, j) <= rest == value % Pow(10, j + 1)
      ensures digit == High(10, value, j) % 10 && remainder == value % Pow(10, j)
    {
      DecimalPlace(value, j, rest, Produced(10, value, j + 1) != "");
      digit := rest / divisor;
      remainder := rest - digit * divisor;
    }

    method PrintUnsigned(ghost start: Log, ghost body: string)
      requires Printing(start, body, 0) && body == Body(Unsigned, conversion, arguments, next)
      modifies `output, `sent, `printed, `next, `log, buffer
      ensures Printing(start, body, |body|) && next == old(next) + 1
    {
      var value := NextNumber();
      PowersOf10();
      if !Is32Bit(conversion) {
        PrintUnsignedFrom(value, 10_000_000_000_000_000_000, 19, start, body, 0);
      } else {
        PrintUnsignedFrom(value % INT_MODULUS, 1_000_000_000, 9, start, body, 0);
      }
    }

    /** The sign, and the digits of the negated value as an unsigned number. */
    method PrintSignedFrom(value: int, negated: int, modulus: nat, startingDivisor: nat, ghost places: nat,
                           ghost start: Log, ghost body: string)
      requires 0 < modulus < Pow(10, places + 1) && startingDivisor == Pow(10, places)
      requires (if value < 0 then negated else value) % modulus == if value < 0 then -value else value
      requires Printing(start, body, 0) && body == Decimal(value)
      modifies `output, `sent, `printed, `log, buffer
      ensures Printing(start, body, |body|)
    {
      if value < 0 {
        PutcharMaybeMinWidth('-', start, body, 0);
        PrintUnsignedFrom(negated % modulus, startingDivisor, places, start, body, 1);
      } else {
        PrintUnsignedFrom(value % modulus, startingDivisor, places, start, body, 0);
      }
    }

    /** Negating the smallest integer overflows in C; here, as on the hardware, it wraps around. */
    method PrintSigned(ghost start: Log, ghost body: string)
      requires Printing(start, body, 0) && body == Body(Signed, conversion, arguments, next)
      modifies `output, `sent, `printed, `next, `log, buffer
      ensures Printing(start, body, |body|) && next == old(next) + 1
    {
      var w := NextNumber();
      PowersOf10();
      Magnitudes(w);
      if !Is32Bit(conversion) {
        var value := ToInt64(w);
        PrintSignedFrom(value, ToInt64(value * -1), WORD_MODULUS, 10_000_000_000_000_000_000, 19, start, body);
      } else {
        var value := ToInt32(w);
        PrintSignedFrom(value, ToInt32(value * -1), INT_MODULUS, 1_000_000_000, 9, start, body);
      }
    }

    /** The call of a conversion's print function. */
    method Call(func: Conversion, ghost body: string)
      requires Valid() && body == Body(func, conversion, arguments, next)
      requires conversion.minWidth == 0 ==> Extends(PutAll(log, body), plan)
      modifies `output, `sent, `printed, `next, `log, buffer
      ensures Valid() && next == old(next) + 1
      ensures log == Chars(old(log), body, conversion.minWidth, |body|)
    {
      match func
      case Char => PrintChar(log, body);
      case String => PrintString(log, body);
      case Hex => PrintHex(log, body);
      case Binary => PrintBinary(log, body);
      case Signed => PrintSigned(log, body);
      case Unsigned => PrintUnsigned(log, body);
    }

    method PrintPadding(amount: nat)
      requires Valid() && Extends(Pad(log, conversion.zeroPad, amount), plan)
      modifies `output, `sent, `printed, `log, buffer
      ensures Valid() && log == Pad(old(log), conversion.zeroPad, amount)
    {
      for i := 0 to amount
        invariant Valid() && log == Pad(old(log), conversion.zeroPad, i)
      {
        PadExtends(old(log), conversion.zeroPad, i + 1, amount);
        ExtendsFurther(Pad(old(log), conversion.zeroPad, i + 1), Pad(old(log), conversion.zeroPad, amount), plan);
        if conversion.zeroPad {
          PutcharMaybeMax('0');
        } else {
          PutcharMaybeMax(' ');
        }
      }
    }

    /**
     min_width_call: pads the body of one conversion to the width, on the chosen side, and
     consumes the argument once. The first of two calls only counts, and leaves no trace.
     */
    method MinWidthCall(func: Conversion, ghost body: string, ghost goal: Log)
      requires Valid() && body == Body(func, conversion, arguments, next)
      requires goal == Field(log, conversion, body) && Extends(goal, plan)
      modifies `output, `sent, `printed, `next, `conversion, `log, buffer
      ensures Valid() && next == old(next) + 1
      ensures log == goal
    {
      if conversion.minWidth > 0 {
        var requested := conversion.minWidth;
        var oldPrinted := printed;
        BodyIgnoresWidth(func, conversion, arguments, next);
        if !conversion.leftJustify {
          var backup := next;
          CharsSkipped(maxOutput, log, body, conversion.minWidth, |body|);
          Call(func, body);
          var fakePrinted := printed - oldPrinted;
          printed := oldPrinted;
          log := old(log);
          next := backup;
          PadTo(requested, fakePrinted, body);
          conversion := conversion.(minWidth := 0);
          Call(func, body);
        } else {
          conversion := conversion.(minWidth := 0);
          PrintAndPad(func, requested, body, goal);
        }
      } else {
        Call(func, body);
      }
    }

    /** The real call, and then the padding behind the body. */
    method PrintAndPad(func: Conversion, requested: int, ghost body: string, ghost goal: Log)
      requires Valid() && conversion.minWidth == 0 && body == Body(func, conversion, arguments, next)
      requires goal == Pad(PutAll(log, body), conversion.zeroPad, requested - |body|) && Extends(goal, plan)
      modifies `output, `sent, `printed, `next, `log, buffer
      ensures Valid() && next == old(next) + 1 && log == goal
    {
      var oldPrinted := printed;
      PadExtends(PutAll(log, body), conversion.zeroPad, 0, if requested < |body| then 0 else requested - |body|);
      ExtendsFurther(PutAll(log, body), goal, plan);
      CountOfChars(log, body, 0, |body|);
      Call(func, body);
      var newPrinted := printed - oldPrinted;
      if requested > newPrinted {
        PrintPadding(requested - newPrinted);
      }
    }

    /** The padding before a body of `count` characters. */
    method PadTo(requested: int, count: int, ghost body: string)
      requires Valid() && count == |body| &&
        Extends(PutAll(Pad(log, conversion.zeroPad, requested - count), body), plan)
      modifies `output, `sent, `printed, `log, buffer
      ensures Valid() && log == Pad(old(log), conversion.zeroPad, requested - count)
    {
      ghost var padded := Pad(log, conversion.zeroPad, requested - count);
      CharsExtend(padded, body, 0, 0, |body|);
      ExtendsFurther(padded, PutAll(padded, body), plan);
      if requested > count {
        PrintPadding(requested - count);
      }
    }

    /** PrintState_reset. */
    method Reset()
      modifies `inConversionSpec, `conversion
      ensures At() == Outside(next, log)
    {
      inConversionSpec := false;
      conversion := NO_CONVERSION;
    }

    method HandlePointer(ghost goal: Log)
      requires goal == Field(Put(Put(log, '0'), 'x'), PointerConversion(conversion),
                             Body(Hex, PointerConversion(conversion), arguments, next))
      requires Valid() && Extends(goal, plan)
      modifies `output, `sent, `printed, `next, `conversion, `inConversionSpec, `log, buffer
      ensures Valid() && At() == Outside(old(next) + 1, goal)
    {
      hide Body, Field;
      conversion := PointerConversion(conversion);
      ghost var body := Body(Hex, conversion, arguments, next);
      ghost var prefixed := Put(Put(log, '0'), 'x');
      FieldExtends(prefixed, conversion, body);
      ExtendsFurther(prefixed, goal, plan);
      ExtendsFurther(Put(log, '0'), prefixed, plan);
      PutcharMaybeMax('0');
      PutcharMaybeMax('x');
      MinWidthCall(Hex, body, goal);
      Reset();
    }

    /** A conversion that has a print function. */
    method HandleConversion(func: Conversion, ghost goal: Log)
      requires goal == Field(log, conversion, Body(func, conversion, arguments, next))
      requires Valid() && Extends(goal, plan)
      modifies `output, `sent, `printed, `next, `conversion, `inConversionSpec, `log, buffer
      ensures Valid() && At() == Outside(old(next) + 1, goal)
    {
      MinWidthCall(func, Body(func, conversion, arguments, next), goal);
      Reset();
    }

    method HandleConversionSpec(c: char, ghost to: Cursor)
      requires to == Handle(c, conversion, arguments, next, log)
      requires Valid() && inConversionSpec && Extends(to.log, plan)
      modifies `output, `sent, `printed, `next, `conversion, `inConversionSpec, `log, buffer
      ensures Valid() && At() == to
    {
      match c
      case '#' => conversion := conversion.(alternative := true);
      case 'l' => conversion := conversion.(longModifiers := (conversion.longModifiers + 1) % 256);
      case '*' =>
        var width := NextNumber();
        conversion := conversion.(minWidth := ToInt32(width));
      case '-' => conversion := conversion.(leftJustify := true);
      case '%' =>
        PutcharMaybeMax('%');
        Reset();
      case 'c' => HandleConversion(Char, to.log);
      case 's' => HandleConversion(String, to.log);
      case 'x' => HandleConversion(Hex, to.log);
      case 'b' => HandleConversion(Binary, to.log);
      case 'i' => HandleConversion(Signed, to.log);
      case 'd' => HandleConversion(Signed, to.log);
      case 'u' => HandleConversion(Unsigned, to.log);
      case 'p' => HandlePointer(to.log);
      case _ =>
    }

    /** The digits of a pending width start before index `i`. */
    ghost predicate WidthStarted(i: nat)
      reads this
    {
      conversion.minWidthChars.Some? ==> conversion.minWidthChars.value <= i
    }

    /** The end of a width that is given by digits. */
    method FinishWidth(format: CString, ghost i: nat)
      requires WidthStarted(i) && i <= |format|
      modifies `conversion
      ensures conversion == EndWidth(format, old(conversion))
    {
      if conversion.minWidthChars != None {
        var width := Atoi(format, conversion.minWidthChars.value);
        conversion := conversion.(minWidth := width, minWidthChars := None);
      }
    }

    /** One character of the format (the body of the loop of PrintTarget_do_print). */
    method HandleCharacter(format: CString, i: nat, ghost to: Cursor)
      requires i < |format| && to == Step(format, i, At(), arguments)
      requires Valid() && WidthStarted(i) && Extends(to.log, plan)
      modifies `output, `sent, `printed, `next, `conversion, `inConversionSpec, `log, buffer
      ensures Valid() && At() == to
    {
      if !inConversionSpec {
        if format[i] == '%' {
          inConversionSpec := true;
        } else {
          PutcharMaybeMax(format[i]);
        }
      } else {
        if !conversion.zeroPad && conversion.minWidthChars == None && format[i] == '0' {
          conversion := conversion.(zeroPad := true);
          return;
        }
        if '0' <= format[i] <= '9' {
          if conversion.minWidthChars == None {
            conversion := conversion.(minWidthChars := Some(i));
          }
          return;
        }
        FinishWidth(format, i);
        HandleConversionSpec(format[i], to);
      }
    }

    /** PrintTarget_do_print, from the fresh state. */
    method DoPrint(format: CString) returns (count: nat)
      requires Valid() && At() == Outside(0, Empty) && plan == Render(format, arguments)
      modifies `output, `sent, `printed, `next, `conversion, `inConversionSpec, `log, buffer
      ensures Valid() && log == Render(format, arguments)
      ensures count == Count(Render(format, arguments))
    {
      var i := 0;
      while CharAt(format, i) != '\0'
        invariant i <= |format| && Valid() && WidthStarted(i)
        invariant At() == Run(format, 0, i, Outside(0, Empty), arguments)
        decreases |format| - i
      {
        RunExtends(format, i + 1, arguments);
        RunStep(format, 0, i, Outside(0, Empty), arguments);
        StartsBefore(format, i, At(), arguments);
        HandleCharacter(format, i, Step(format, i, At(), arguments));
        i := i + 1;
      }
      count := printed;
    }
  }

  /** The digits of a pending width start before the next character. */
  lemma StartsBefore(format: CString, i: nat, at: Cursor, args: seq<Arg>)
    requires i < |format| && (at.conversion.minWidthChars.Some? ==> at.conversion.minWidthChars.value <= i)
    ensures var conv := Step(format, i, at, args).conversion;
      conv.minWidthChars.Some? ==> conv.minWidthChars.value <= i + 1
  {
  }

  lemma SuffixAt(s: string, skip: nat, k: nat)
    requires skip + k < |s|
    ensures s[skip + k] == s[skip..][k]
  {
  }

  lemma BodyIgnoresWidth(func: Conversion, conv: ConversionSpec, args: seq<Arg>, k: nat)
    ensures Body(func, conv.(minWidth := 0), args, k) == Body(func, conv, args, k)
  {
  }
}
