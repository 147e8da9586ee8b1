/** The members of the printf family that write to a stream or to a buffer. */
module Stdio {
  import opened Strings
  import opened PrintfSpec
  import opened PrintfLaws
  import opened Printf

  /** A buffer after `text` was written to its beginning and a NUL at `end`. */
  function Overwritten(before: seq<char>, text: string, end: nat): seq<char>
    requires |text| <= |before| && end < |before|
  {
    (text + before[|text|..])[end := '\0']
  }

  /** The text, its NUL, and the rest of the buffer as it was. */
  predicate Holds(buffer: seq<char>, before: seq<char>, text: string) {
    |buffer| == |before| && |text| < |before| && buffer == text + ['\0'] + before[|text| + 1..]
  }

  /** printf: the characters reach the stream in order, and are counted. */
  method PrintToStream(format: CString, args: seq<Arg>) returns (sent: string, printed: nat)
    ensures sent == TextOf(Render(format, args)) && printed == Count(Render(format, args))
    ensures printed == |sent| <==> !Skips(format, args)
  {
    var none := new char[0];
    var state := new PrintState(false, none, args, NO_MAX_OUTPUT, Render(format, args));
    printed := state.DoPrint(format);
    sent := state.sent;
    CountsWhatItPrints(format, args);
  }

  /**
   sprintf. The caller provides room for every counted character and the NUL, which is
   written behind the counted characters: directly behind the text if and only if no
   character was only counted.
   */
  method Sprintf(buffer: array<char>, format: CString, args: seq<Arg>) returns (printed: nat)
    requires Count(Render(format, args)) < buffer.Length
    modifies buffer
    ensures printed == Count(Render(format, args)) && |TextOf(Render(format, args))| <= printed
    ensures buffer[..] == Overwritten(old(buffer[..]), TextOf(Render(format, args)), printed)
    ensures printed == |TextOf(Render(format, args))| <==> !Skips(format, args)
    ensures !Skips(format, args) ==> Holds(buffer[..], old(buffer[..]), TextOf(Render(format, args)))
  {
    ghost var text := TextOf(Render(format, args));
    CountIsLength(Render(format, args));
    CountsWhatItPrints(format, args);
    var state := new PrintState(true, buffer, args, NO_MAX_OUTPUT, Render(format, args));
    printed := state.DoPrint(format);
    WholeBuffer(buffer[..], old(buffer[..]), text);
    buffer[printed] := '\0';
    TextThenNul(old(buffer[..]), text);
  }

  /**
   snprintf. Nothing is written outside the first `bufsz` bytes. Unless a character was only
   counted, the result is the length of the text that sprintf would write, and the buffer
   holds the first min(length, bufsz - 1) characters of it and a NUL.
   */
  method Snprintf(buffer: array<char>, bufsz: nat, format: CString, args: seq<Arg>) returns (printed: nat)
    requires bufsz <= buffer.Length
    modifies buffer
    ensures printed == Count(Render(format, args))
    ensures bufsz == 0 ==> buffer[..] == old(buffer[..])
    ensures bufsz > 0 ==>
      var text := Written(MaxOutput(true, bufsz), Render(format, args));
      |text| < bufsz && buffer[..] == Overwritten(old(buffer[..]), text, Min(printed, bufsz - 1))
    ensures printed == |TextOf(Render(format, args))| <==> !Skips(format, args)
    ensures bufsz > 0 && !Skips(format, args) ==>
      Holds(buffer[..], old(buffer[..]), TextOf(Render(format, args))[..Min(printed, bufsz - 1)])
  {
    ghost var text := Written(MaxOutput(true, bufsz), Render(format, args));
    LimitedIsPrefix(bufsz, Render(format, args));
    CountsWhatItPrints(format, args);
    var maxOutput := MaxOutput(true, bufsz);
    var state := new PrintState(true, buffer, args, maxOutput, Render(format, args));
    printed := state.DoPrint(format);
    WholeBuffer(buffer[..], old(buffer[..]), text);
    if bufsz > printed {
      buffer[printed] := '\0';
    } else if bufsz == 0 {
    } else {
      buffer[bufsz - 1] := '\0';
    }
    if bufsz > 0 {
      TextThenNul(old(buffer[..]), text);
    }
  }

  /** A buffer that starts with `text` and is otherwise unchanged. */
  lemma WholeBuffer(buffer: seq<char>, before: seq<char>, text: string)
    requires |buffer| == |before| && |text| <= |before|
    requires buffer[..|text|] == text && buffer[|text|..] == before[|text|..]
    ensures buffer == text + before[|text|..]
  {
  }

  lemma TextThenNul(before: seq<char>, text: string)
    requires |text| < |before|
    ensures Holds(Overwritten(before, text, |text|), before, text)
  {
  }
}
