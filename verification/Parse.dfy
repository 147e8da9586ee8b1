/** Reading integers from strings (`parse`, `atoi`, `atoll`). */
module Parse {
  import opened Numerals
  import opened Strings

  predicate Whitespace(c: char) {
    c == ' ' || c == '\n' || c == '\t'
  }

  /** Where the spaces at index `i` end. */
  function SpacesEnd(s: string, i: nat): (end: nat)
    requires i <= |s|
    ensures i <= end <= |s|
    decreases |s| - i
  {
    if i < |s| && Whitespace(s[i]) then SpacesEnd(s, i + 1) else i
  }

  /** Where the digits at index `i` end. */
  function DigitsEnd(s: string, i: nat): (end: nat)
    requires i <= |s|
    ensures i <= end <= |s|
    decreases |s| - i
  {
    if i < |s| && IsDecimalDigit(s[i]) then DigitsEnd(s, i + 1) else i
  }

  predicate SignAt(s: string, i: nat) {
    i < |s| && (s[i] == '+' || s[i] == '-')
  }

  /** The number at index `i`, with its sign; 0 if there is none. */
  function NumberAt(s: string, i: nat): int
    requires i <= |s|
  {
    var start := if SignAt(s, i) then i + 1 else i;
    var n: int := NumberIn(s, start, DigitsEnd(s, start));
    if SignAt(s, i) && s[i] == '-' then -n else n
  }

  /** The number that follows any spaces at index `i`, before any wrapping. */
  function DenotedAt(s: string, i: nat): int
    requires i <= |s|
  {
    NumberAt(s, SpacesEnd(s, i))
  }

  /** Where the digits end: at a space, at the NUL, or at anything else that is no digit. */
  method FindEnd(str: CString, start: nat) returns (end: nat)
    requires start <= |str|
    ensures end == DigitsEnd(str, start)
  {
    end := start;
    while CharAt(str, end) != '\0'
      invariant start <= end <= |str| && DigitsEnd(str, start) == DigitsEnd(str, end)
      decreases |str| - end
    {
      if Whitespace(CharAt(str, end)) {
        break;
      }
      if CharAt(str, end) < '0' || CharAt(str, end) > '9' {
        break;
      }
      end := end + 1;
    }
  }

  lemma AccumulateStep(str: string, ch: nat, end: nat)
    requires ch < end <= |str|
    ensures var p := Pow(10, end - 1 - ch);
      && ToInt64(NumberIn(str, ch, end)) ==
        ToInt64(ToInt64(NumberIn(str, ch + 1, end)) + DecimalValue(str[ch]) * ToInt64(p))
      && ToInt64(Pow(10, end - ch)) == ToInt64(ToInt64(p) * 10)
  {
    var p := Pow(10, end - 1 - ch);
    FirstDigit(str, ch, end);
    WrapLinear(NumberIn(str, ch + 1, end), DecimalValue(str[ch]), p);
    WrapLinear(0, 10, p);
  }

  /** The digits from right to left, in wrapping arithmetic. */
  method Accumulate(str: CString, start: nat, end: nat) returns (value: int)
    requires start <= end <= |str| && forall k :: start <= k < end ==> IsDecimalDigit(str[k])
    ensures value == ToInt64(NumberIn(str, start, end))
  {
    value := 0;
    var multiplier := 1;
    var ch: int := end - 1;
    while ch >= start
      invariant start - 1 <= ch < end
      invariant value == ToInt64(NumberIn(str, (ch + 1) as nat, end))
      invariant multiplier == ToInt64(Pow(10, (end - 1 - ch) as nat))
    {
      AccumulateStep(str, ch, end);
      value := ToInt64(value + (str[ch] as int - '0' as int) * multiplier);
      multiplier := ToInt64(multiplier * 10);
      ch := ch - 1;
    }
  }

  lemma {:induction false} DigitsBeforeEnd(s: string, i: nat)
    requires i <= |s|
    ensures forall k :: i <= k < DigitsEnd(s, i) ==> IsDecimalDigit(s[k])
    decreases |s| - i
  {
    if i < |s| && IsDecimalDigit(s[i]) {
      DigitsBeforeEnd(s, i + 1);
    }
  }

  /**
   `parse` on the string that starts at index `from` of `str`: the number that it denotes,
   wrapped to 64 bits. (The early return on a NUL inside the loop over spaces cannot be
   reached: NUL is no space.)
   */
  method Parse(str: CString, from: nat) returns (r: int)
    requires from <= |str|
    ensures r == ToInt64(DenotedAt(str, from))
  {
    var i := from;
    while Whitespace(CharAt(str, i))
      invariant from <= i <= |str| && SpacesEnd(str, from) == SpacesEnd(str, i)
      decreases |str| - i
    {
      i := i + 1;
    }
    var negative := false;
    if CharAt(str, i) == '+' {
      i := i + 1;
    } else if CharAt(str, i) == '-' {
      negative := true;
      i := i + 1;
    }
    var end := FindEnd(str, i);
    if end == i {
      return 0;
    }
    DigitsBeforeEnd(str, i);
    var value := Accumulate(str, i, end);
    if negative {
      WrapLinear(0, -1, NumberIn(str, i, end));
      r := ToInt64(-value);
    } else {
      r := value;
    }
  }

  /** `atoi` truncates the result to 32 bits. */
  method Atoi(str: CString, from: nat) returns (r: int)
    requires from <= |str|
    ensures r == ToInt32(ToInt64(DenotedAt(str, from)))
  {
    var value := Parse(str, from);
    r := ToInt32(value);
  }

  method Atoll(str: CString) returns (r: int)
    ensures r == ToInt64(DenotedAt(str, 0))
  {
    r := Parse(str, 0);
  }

  // ---------------------------------------------------------------- where wrapping starts

  /**
   The sums and the multipliers that the loop over `n` digits before `end` goes through all
   fit in 64 bits; the multiplier is raised once more after the last digit.
   */
  ghost predicate NeverOverflows(s: string, n: nat, end: nat)
    requires n <= end <= |s|
  {
    forall k: nat :: k <= n ==> StepFits(s, k, end)
  }

  /** After `k` digits. */
  predicate StepFits(s: string, k: nat, end: nat)
    requires k <= end <= |s|
  {
    NumberIn(s, end - k, end) <= INT64_MAX && Pow(10, k) <= INT64_MAX
  }

  lemma {:induction false} PowGrows(j: nat, k: nat)
    requires j <= k
    ensures Pow(10, j) <= Pow(10, k)
  {
    if j < k {
      PowGrows(j, k - 1);
    }
  }

  lemma PowersAround64Bits()
    ensures Pow(10, 18) == 1_000_000_000_000_000_000
    ensures Pow(10, 19) == 10_000_000_000_000_000_000
  {
    assert Pow(10, 6) == 1_000_000;
    assert Pow(10, 12) == 1_000_000_000_000;
  }

  /** Reading a number stays clear of signed overflow exactly up to 18 digits, leading zeros included. */
  lemma NoOverflowUpTo18Digits(s: string, n: nat, end: nat)
    requires n <= end <= |s|
    ensures NeverOverflows(s, n, end) <==> n <= 18
  {
    PowersAround64Bits();
    if n <= 18 {
      forall k: nat | k <= n
        ensures StepFits(s, k, end)
      {
        NumberInBelow(s, end - k, end);
        PowGrows(k, 18);
      }
    } else {
      assert !StepFits(s, 19, end);
    }
  }

  // ---------------------------------------------------------------- reading what was printed

  /** A number in decimal, as the conversions `d` and `i` print it. */
  function Decimal(v: int): string {
    if v < 0 then "-" + Digits(10, -v) else Digits(10, v)
  }

  /** From `a` on there are digits up to `b`, and no digit there. */
  predicate DigitsStand(s: string, a: nat, b: nat) {
    a <= b <= |s| && (forall k :: a <= k < b ==> IsDecimalDigit(s[k])) && (b < |s| ==> !IsDecimalDigit(s[b]))
  }

  lemma {:induction false} DigitsEndAt(s: string, a: nat, b: nat)
    requires DigitsStand(s, a, b)
    ensures DigitsEnd(s, a) == b
    decreases b - a
  {
    if a < b {
      DigitsEndAt(s, a + 1, b);
    }
  }

  lemma {:induction false} SpacesEndAt(s: string, a: nat, b: nat)
    requires a <= b <= |s| && (forall k :: a <= k < b ==> Whitespace(s[k])) && (b < |s| ==> !Whitespace(s[b]))
    ensures SpacesEnd(s, a) == b
    decreases b - a
  {
    if a < b {
      SpacesEndAt(s, a + 1, b);
    }
  }

  /** A numeral that stands in a string, with no digit behind it, is read as its number. */
  lemma NumeralIsRead(s: string, a: nat, n: nat)
    requires a + |Digits(10, n)| <= |s| && s[a..a + |Digits(10, n)|] == Digits(10, n)
    requires a + |Digits(10, n)| < |s| ==> !IsDecimalDigit(s[a + |Digits(10, n)|])
    ensures DigitsStand(s, a, a + |Digits(10, n)|)
    ensures NumberIn(s, a, DigitsEnd(s, a)) == n
  {
    var m := |Digits(10, n)|;
    DigitsAreDigits(n);
    forall k | a <= k < a + m
      ensures IsDecimalDigit(s[k])
    {
      assert s[k] == s[a..a + m][k - a];
    }
    DigitsEndAt(s, a, a + m);
    NumberOfDigits(n);
    assert Digits(10, n)[0..m] == Digits(10, n);
    NumberMoves(s, a, Digits(10, n), 0, m);
  }

  /** Nothing but the three characters that `parse` skips. */
  predicate AreSpaces(s: string) {
    forall k :: 0 <= k < |s| ==> s[k] == ' ' || s[k] == '\n' || s[k] == '\t'
  }

  lemma NumberAtDecimal(s: string, a: nat, v: int)
    requires a + |Decimal(v)| <= |s| && s[a..a + |Decimal(v)|] == Decimal(v)
    requires a + |Decimal(v)| < |s| ==> !IsDecimalDigit(s[a + |Decimal(v)|])
    ensures NumberAt(s, a) == v && a < |s| && !Whitespace(s[a])
  {
    var text := Decimal(v);
    assert s[a] == s[a..a + |text|][0] == text[0];
    if v < 0 {
      assert s[a + 1..a + |text|] == s[a..a + |text|][1..] == Digits(10, -v);
      NumeralIsRead(s, a + 1, -v);
    } else {
      DigitsAreDigits(v);
      NumeralIsRead(s, a, v);
    }
  }

  /** Reading undoes printing, with any spaces before and anything but a digit behind. */
  lemma ReadsBack(spaces: string, v: int, tail: string)
    requires AreSpaces(spaces) && (tail == "" || !IsDecimalDigit(tail[0]))
    ensures DenotedAt(spaces + Decimal(v) + tail, 0) == v
  {
    var s := spaces + Decimal(v) + tail;
    var a := |spaces|;
    assert s[a..a + |Decimal(v)|] == Decimal(v);
    NumberAtDecimal(s, a, v);
    SpacesEndAt(s, 0, a);
  }

  /** Any other character before a number, unless it is a sign or a digit, makes it read as 0. */
  lemma ReadsBackBehindExactlyFor(c: char, v: int)
    requires !IsDecimalDigit(c) && c != '+' && c != '-'
    ensures DenotedAt([c] + Decimal(v), 0) == v <==> c == ' ' || c == '\n' || c == '\t' || v == 0
    ensures DenotedAt([c] + Decimal(v), 0) == v || DenotedAt([c] + Decimal(v), 0) == 0
  {
    var s := [c] + Decimal(v);
    if c == ' ' || c == '\n' || c == '\t' {
      ReadsBack([c], v, "");
      assert [c] + Decimal(v) + "" == s;
    } else {
      SpacesEndAt(s, 0, 0);
      DigitsEndAt(s, 0, 0);
    }
  }

  /** `atoll` of what `%lld` prints is the number itself, for every 64-bit number. */
  lemma AtollReadsBack(v: int)
    requires INT64_MIN <= v <= INT64_MAX
    ensures ToInt64(DenotedAt(Decimal(v), 0)) == v
  {
    ReadsBack("", v, "");
    assert "" + Decimal(v) + "" == Decimal(v);
  }

  function Zeros(n: nat): (zeros: string)
    ensures |zeros| == n && forall k :: 0 <= k < n ==> zeros[k] == '0'
  {
    if n == 0 then "" else Zeros(n - 1) + "0"
  }

  /** Digits from the start of a string, without spaces or a sign, are what it denotes. */
  lemma DenotesDigits(s: string, b: nat)
    requires b > 0 && DigitsStand(s, 0, b)
    ensures DenotedAt(s, 0) == NumberIn(s, 0, b)
  {
    assert IsDecimalDigit(s[0]);
    SpacesEndAt(s, 0, 0);
    DigitsEndAt(s, 0, b);
  }

  /**
   Zero padding goes before the sign: the padded text of a negative number no longer reads
   back, unless there was nothing to pad.
   */
  lemma ZeroPaddedReadsBackExactlyFor(v: int, n: nat)
    ensures DenotedAt(Zeros(n) + Decimal(v), 0) == v <==> v >= 0 || n == 0
  {
    var s := Zeros(n) + Decimal(v);
    if n == 0 {
      DecimalReadsBack(v);
      assert s == Decimal(v);
    } else if v >= 0 {
      assert s[n..] == Digits(10, v);
      NumeralIsRead(s, n, v);
      DenotesDigits(s, |s|);
      LeadingZeros(s, 0, n);
      NumberJoin(s, 0, n, |s|);
      DigitsEndAt(s, n, |s|);
    } else {
      assert s[n] == '-';
      DenotesDigits(s, n);
      LeadingZeros(s, 0, n);
    }
  }

  lemma DecimalReadsBack(v: int)
    ensures DenotedAt(Decimal(v), 0) == v
  {
    ReadsBack("", v, "");
    assert "" + Decimal(v) + "" == Decimal(v);
  }

  lemma ZerosStand(s: string, a: nat, m: nat, n: nat)
    requires a <= |s| && s[a..] == Digits(10, m) + Zeros(n)
    ensures DigitsStand(s, a, |s|) && a + |Digits(10, m)| + n == |s|
    ensures forall k :: a + |Digits(10, m)| <= k < |s| ==> s[k] == '0'
  {
    DigitsAreDigits(m);
    forall k | a <= k < |s|
      ensures IsDecimalDigit(s[k]) && (k >= a + |Digits(10, m)| ==> s[k] == '0')
    {
      assert s[k] == s[a..][k - a];
    }
  }

  /** The number that the digits from `a` on stand for, when zeros follow a numeral. */
  lemma {:induction false} ZerosBehind(s: string, a: nat, m: nat, n: nat)
    requires a <= |s| && s[a..] == Digits(10, m) + Zeros(n)
    ensures DigitsStand(s, a, |s|) && NumberIn(s, a, |s|) == m * Pow(10, n)
  {
    var d := |Digits(10, m)|;
    ZerosStand(s, a, m, n);
    assert s[a..a + d] == s[a..][..d];
    assert Digits(10, m)[0..d] == (Digits(10, m) + Zeros(n))[..d];
    NumberMoves(s, a, Digits(10, m), 0, d);
    NumberOfDigits(m);
    LeadingZeros(s, a + d, |s|);
    NumberJoin(s, a, a + d, |s|);
  }

  /** Left-justified zero padding multiplies by a power of ten. */
  lemma {:induction false} ZerosBehindReadBackExactlyFor(v: int, n: nat)
    ensures DenotedAt(Decimal(v) + Zeros(n), 0) == v * Pow(10, n)
    ensures DenotedAt(Decimal(v) + Zeros(n), 0) == v <==> v == 0 || n == 0
  {
    var s := Decimal(v) + Zeros(n);
    var m: nat := if v < 0 then -v else v;
    DigitsAreDigits(m);
    if v < 0 {
      assert s[1..] == Digits(10, m) + Zeros(n);
      ZerosBehind(s, 1, m, n);
      SpacesEndAt(s, 0, 0);
      DigitsEndAt(s, 1, |s|);
    } else {
      assert s[0..] == Digits(10, m) + Zeros(n);
      ZerosBehind(s, 0, m, n);
      DenotesDigits(s, |s|);
    }
    if n > 0 {
      PowGrows(1, n);
    }
    Scaled(v, Pow(10, n));
  }

  lemma Scaled(v: int, p: nat)
    ensures (if v < 0 then -((-v) * p) else v * p) == v * p
    ensures p == 1 ==> v * p == v
    ensures p >= 10 ==> (v * p == v <==> v == 0)
  {
    if p >= 10 {
      var m: nat := if v < 0 then -v else v;
      MulMonotone(m, 10, p);
    }
  }
}
