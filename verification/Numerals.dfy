/** Positional numerals: the digits that the output loops produce and the parser reads. */
module Numerals {
  type Base = b: nat | 2 <= b <= 16 witness 10

  function Pow(b: Base, n: nat): (p: nat)
    ensures p > 0
  {
    if n == 0 then 1 else b * Pow(b, n - 1)
  }

  function DigitChar(d: nat): char
    requires d < 16
  {
    if d <= 9 then '0' + d as char else 'a' + (d - 10) as char
  }

  predicate IsDecimalDigit(c: char) {
    '0' <= c <= '9'
  }

  function DecimalValue(c: char): nat {
    if IsDecimalDigit(c) then c as nat - '0' as nat else 0
  }

  /** The numeral of `n`: no leading zeros, and "0" for zero. */
  function Digits(b: Base, n: nat): (s: string)
    ensures s != ""
  {
    if n < b then [DigitChar(n)]
    else
      QuotientIsSmaller(n, b);
      Digits(b, n / b) + [DigitChar(n % b)]
  }

  /** The digits that come before those not yet produced: nothing while only zeros were seen. */
  function Leading(b: Base, n: nat): string {
    if n == 0 then "" else Digits(b, n)
  }

  // ---------------------------------------------------------------- division

  lemma QuotientIsSmaller(n: nat, b: Base)
    requires n >= b
    ensures 0 < n / b < n
  {
  }

  /** The divisor of the next decimal place. */
  lemma NextDivisor(j: nat)
    ensures Pow(10, j) / 10 == if j == 0 then 0 else Pow(10, j - 1)
  {
  }

  lemma DivMod(n: nat, d: nat)
    requires d > 0
    ensures n == d * (n / d) + n % d && n % d < d
  {
  }

  lemma DivUnique(n: nat, d: nat, q: nat, r: nat)
    requires n == d * q + r && r < d
    ensures n / d == q && n % d == r
  {
    DivMod(n, d);
    MulOrder(d, q, n / d);
    MulOrder(d, n / d, q);
  }

  lemma MulOrder(d: nat, q: nat, m: nat)
    ensures q < m ==> d * q + d <= d * m
  {
    if q < m {
      MulMonotone(d, q + 1, m);
    }
  }

  lemma Regroup(p: nat, b: nat, a: nat, c: nat)
    ensures p * (b * a + c) == (b * p) * a + p * c
  {
  }

  lemma MulMonotone(p: nat, a: nat, b: nat)
    requires a <= b
    ensures p * a <= p * b
  {
  }

  lemma RemainderBound(p: nat, b: nat, c: nat, r: nat)
    requires c < b && r < p
    ensures p * c + r < b * p
  {
    MulMonotone(p, c + 1, b);
  }

  lemma Positive(b: nat, p: nat)
    requires b > 0 && p > 0
    ensures b * p > 0
  {
  }

  /** Dropping `b` digits at once or one after the other; and the digit in between. */
  lemma SplitDigit(n: nat, b: nat, p: nat, bp: nat)
    requires b > 0 && p > 0 && bp == b * p
    ensures bp > 0
    ensures n / bp == n / p / b
    ensures n % bp / p == n / p % b && n % bp % p == n % p
  {
    Positive(b, p);
    var q, r := n / p, n % p;
    var a, c := q / b, q % b;
    DivMod(n, p);
    DivMod(q, b);
    Regroup(p, b, a, c);
    RemainderBound(p, b, c, r);
    DivUnique(n, bp, a, p * c + r);
    DivUnique(p * c + r, p, c, r);
  }

  // ---------------------------------------------------------------- producing digits from the left

  /** One more digit behind a numeral. */
  lemma AddDigit(b: Base, m: nat)
    ensures Leading(b, m) ==
      if m % b == 0 && Leading(b, m / b) == "" then "" else Leading(b, m / b) + [DigitChar(m % b)]
  {
    DivMod(m, b);
    if m >= b {
      QuotientIsSmaller(m, b);
    } else {
      DivUnique(m, b, 0, m);
    }
  }

  /** The number without its last `i` digits. */
  function High(b: Base, n: nat, i: nat): (h: nat)
    ensures i == 0 ==> h == n
    ensures n < Pow(b, i) ==> h == 0
  {
    DivMod(n, Pow(b, i));
    DivUnique(n, 1, n, 0);
    if n < Pow(b, i) then
      DivUnique(n, Pow(b, i), 0, n);
      0
    else
      QuotientOfNat(n, Pow(b, i));
      n / Pow(b, i)
  }

  lemma QuotientOfNat(n: nat, d: nat)
    requires d > 0
    ensures n / d >= 0
  {
  }

  /** What a loop over the places of a number has produced when place `i` is done: no zeros before other digits. */
  function Produced(b: Base, n: nat, i: nat): string {
    if i == 0 then Digits(b, n) else Leading(b, High(b, n, i))
  }

  lemma HighIsQuotient(b: Base, n: nat, i: nat)
    ensures High(b, n, i) == n / Pow(b, i)
  {
    if n < Pow(b, i) {
      DivUnique(n, Pow(b, i), 0, n);
    }
  }

  /** The digit at place `i` continues what was produced; it is skipped as long as there were only zeros. */
  lemma PlaceStep(b: Base, n: nat, i: nat)
    ensures High(b, n, i + 1) == High(b, n, i) / b
    ensures var d := High(b, n, i) % b;
      Produced(b, n, i) ==
      if d == 0 && Produced(b, n, i + 1) == "" && i != 0 then "" else Produced(b, n, i + 1) + [DigitChar(d)]
  {
    HighIsQuotient(b, n, i);
    HighIsQuotient(b, n, i + 1);
    SplitDigit(n, b, Pow(b, i), Pow(b, i + 1));
    AddDigit(b, High(b, n, i));
  }

  /** What was produced at any time is the beginning of the whole numeral. */
  lemma {:induction false} ProducedIsPrefix(b: Base, n: nat, i: nat)
    ensures Produced(b, n, i) <= Digits(b, n)
  {
    if i > 0 {
      PlaceStep(b, n, i - 1);
      ProducedIsPrefix(b, n, i - 1);
    }
  }

  lemma {:induction false} PowAdd(b: Base, i: nat, j: nat)
    ensures Pow(b, i + j) == Pow(b, i) * Pow(b, j)
  {
    if i > 0 {
      PowAdd(b, i - 1, j);
      MulAssociative(b, Pow(b, i - 1), Pow(b, j));
    }
  }

  lemma MulAssociative(a: nat, b: nat, c: nat)
    ensures a * (b * c) == (a * b) * c
  {
  }

  // ---------------------------------------------------------------- what numerals mean

  lemma {:induction false} DigitsAreDigits(n: nat)
    ensures forall k :: 0 <= k < |Digits(10, n)| ==> IsDecimalDigit(Digits(10, n)[k])
  {
    if n >= 10 {
      DigitsAreDigits(n / 10);
    }
  }

  /** Only zero is written with a leading zero. */
  lemma {:induction false} NoLeadingZero(b: Base, n: nat)
    requires n > 0
    ensures Digits(b, n)[0] != '0'
  {
    if n >= b {
      QuotientIsSmaller(n, b);
      NoLeadingZero(b, n / b);
    }
  }

  /** A numeral has `k` digits exactly when its number lies between the powers of the base. */
  lemma {:induction false} LengthOfDigits(b: Base, n: nat, k: nat)
    requires k > 0
    ensures |Digits(b, n)| <= k <==> n < Pow(b, k)
    decreases n
  {
    var p := Pow(b, k - 1);
    if n < b {
      MulMonotone(b, 1, p);
    } else {
      QuotientIsSmaller(n, b);
      QuotientBelow(n, b, p);
      if k > 1 {
        LengthOfDigits(b, n / b, k - 1);
      }
    }
  }

  lemma QuotientBelow(n: nat, b: Base, p: nat)
    ensures n / b < p <==> n < b * p
  {
    DivMod(n, b);
    if n / b < p {
      MulMonotone(b, n / b + 1, p);
    } else {
      MulMonotone(b, p, n / b);
    }
  }

  /** What a digit stands for, in any base up to 16. */
  function DigitValue(c: char): nat {
    if '0' <= c <= '9' then c as nat - '0' as nat
    else if 'a' <= c <= 'f' then c as nat - 'a' as nat + 10
    else 16
  }

  /** The number that a numeral to base `b` denotes. */
  function ValueOf(b: Base, s: string): nat {
    if s == "" then 0 else ValueOf(b, s[..|s| - 1]) * b + DigitValue(s[|s| - 1])
  }

  /** The digits of a number denote it, in every base: those from ten on are the letters from a on. */
  lemma {:induction false} DigitsDenote(b: Base, n: nat)
    ensures ValueOf(b, Digits(b, n)) == n
    ensures forall k :: 0 <= k < |Digits(b, n)| ==> DigitValue(Digits(b, n)[k]) < b
  {
    if n < b {
      assert Digits(b, n)[..0] == "";
    } else {
      DigitsDenote(b, n / b);
      assert Digits(b, n)[..|Digits(b, n)| - 1] == Digits(b, n / b);
      DivMod(n, b);
    }
  }

  // ---------------------------------------------------------------- numbers from the right

  /** The number that the digits of `s` from `a` up to `b` stand for. */
  function NumberIn(s: string, a: nat, b: nat): nat
    requires a <= b <= |s|
    decreases b - a
  {
    if a == b then 0 else NumberIn(s, a, b - 1) * 10 + DecimalValue(s[b - 1])
  }

  /** The weight of the first digit. */
  lemma {:induction false} FirstDigit(s: string, a: nat, b: nat)
    requires a < b <= |s|
    ensures NumberIn(s, a, b) == DecimalValue(s[a]) * Pow(10, b - a - 1) + NumberIn(s, a + 1, b)
    decreases b - a
  {
    if a + 1 < b {
      FirstDigit(s, a, b - 1);
      ShiftSum(DecimalValue(s[a]), Pow(10, b - a - 2), NumberIn(s, a + 1, b - 1));
    }
  }

  lemma ShiftSum(d: nat, p: nat, m: nat)
    ensures (d * p + m) * 10 == d * (10 * p) + m * 10
  {
  }

  lemma {:induction false} NumberInBelow(s: string, a: nat, b: nat)
    requires a <= b <= |s|
    ensures NumberIn(s, a, b) < Pow(10, b - a)
    decreases b - a
  {
    if a < b {
      NumberInBelow(s, a, b - 1);
    }
  }

  /** A numeral stands for its number. */
  lemma {:induction false} NumberOfDigits(n: nat)
    ensures NumberIn(Digits(10, n), 0, |Digits(10, n)|) == n
  {
    if n < 10 {
      assert NumberIn(Digits(10, n), 0, 0) == 0;
    } else {
      var m := |Digits(10, n / 10)|;
      NumberOfDigits(n / 10);
      assert Digits(10, n)[0..m] == Digits(10, n / 10)[0..m];
      NumberMoves(Digits(10, n), 0, Digits(10, n / 10), 0, m);
    }
  }

  /** Only the digits matter, not where they stand. */
  lemma {:induction false} NumberMoves(s: string, a: nat, t: string, c: nat, n: nat)
    requires a + n <= |s| && c + n <= |t| && s[a..a + n] == t[c..c + n]
    ensures NumberIn(s, a, a + n) == NumberIn(t, c, c + n)
  {
    if n > 0 {
      assert s[a..a + n - 1] == s[a..a + n][..n - 1] == t[c..c + n][..n - 1] == t[c..c + n - 1];
      assert s[a..a + n][n - 1] == t[c..c + n][n - 1];
      NumberMoves(s, a, t, c, n - 1);
    }
  }

  /** Leading zeros do not count. */
  lemma {:induction false} LeadingZeros(s: string, a: nat, b: nat)
    requires a <= b <= |s| && forall k :: a <= k < b ==> s[k] == '0'
    ensures NumberIn(s, a, b) == 0
    decreases b - a
  {
    if a < b {
      LeadingZeros(s, a, b - 1);
    }
  }

  lemma {:induction false} NumberJoin(s: string, a: nat, m: nat, b: nat)
    requires a <= m <= b <= |s|
    ensures NumberIn(s, a, b) == NumberIn(s, a, m) * Pow(10, b - m) + NumberIn(s, m, b)
    decreases b - m
  {
    if m < b {
      NumberJoin(s, a, m, b - 1);
      ShiftSum(NumberIn(s, a, m), Pow(10, b - 1 - m), NumberIn(s, m, b - 1));
    }
  }

  /** One turn of a loop over decimal divisors: the remainder gives the digit at place `j`. */
  lemma DecimalPlace(n: nat, j: nat, rest: nat, started: bool)
    requires n > 0 && rest == n % Pow(10, j + 1) && (started <==> Produced(10, n, j + 1) != "")
    ensures var p := Pow(10, j);
      && (rest < p ==> rest == n % p && High(10, n, j) % 10 == 0)
      && (rest >= p ==> 0 < rest / p == High(10, n, j) % 10 && rest - rest / p * p == n % p)
    ensures rest >= Pow(10, j) || started ==>
      Produced(10, n, j) == Produced(10, n, j + 1) + [DigitChar(High(10, n, j) % 10)]
    ensures rest < Pow(10, j) && !started ==> Produced(10, n, j) == ""
  {
    var p := Pow(10, j);
    PlaceStep(10, n, j);
    SplitDigit(n, 10, p, Pow(10, j + 1));
    HighIsQuotient(10, n, j);
    DivMod(rest, p);
    if rest < p {
      DivUnique(rest, p, 0, rest);
    } else {
      QuotientIsPositive(rest, p);
    }
    if j == 0 {
      LeadingOfPositive(n);
    }
  }

  /** ... as the loop sees it. */
  lemma DecimalTurn(n: nat, j: nat, rest: nat, started: bool)
    requires n > 0 && rest == n % Pow(10, j + 1) && (started <==> Produced(10, n, j + 1) != "")
    ensures rest < Pow(10, j) ==> rest == n % Pow(10, j)
    ensures rest >= Pow(10, j) || started ==>
      Produced(10, n, j) == Produced(10, n, j + 1) + [DigitChar(High(10, n, j) % 10)]
    ensures rest < Pow(10, j) ==> DigitChar(High(10, n, j) % 10) == '0'
    ensures rest < Pow(10, j) && !started ==> Produced(10, n, j) == ""
  {
    DecimalPlace(n, j, rest, started);
  }

  lemma QuotientIsPositive(n: nat, d: nat)
    requires 0 < d <= n
    ensures n / d > 0 && d * (n / d) == n / d * d
  {
  }

  lemma LeadingOfPositive(n: nat)
    requires n > 0
    ensures Digits(10, n) == Leading(10, n)
    ensures n % 10 == 0 ==> Leading(10, n / 10) != ""
  {
  }
}
