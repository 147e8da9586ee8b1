/** C strings and the machine integers of the C library. */
module Strings {
  import opened Prelude

  /** The characters of a C string before its terminating NUL. */
  type CString = s: string | '\0' !in s

  /** The character at an index of a C string, its NUL included. */
  function CharAt(s: CString, i: nat): char
    requires i <= |s|
  {
    if i < |s| then s[i] else '\0'
  }

  const INT64_MIN: int := -0x8000_0000_0000_0000
  const INT64_MAX: int := 0x7FFF_FFFF_FFFF_FFFF

  /** The value of a 64-bit signed integer that wraps around. */
  function ToInt64(x: int): (r: int)
    ensures INT64_MIN <= r <= INT64_MAX
    ensures INT64_MIN <= x <= INT64_MAX ==> r == x
    ensures r % 0x1_0000_0000_0000_0000 == x % 0x1_0000_0000_0000_0000
  {
    var m := x % 0x1_0000_0000_0000_0000;
    if m <= INT64_MAX then m else m - WORD_MODULUS
  }

  /** The value of a 32-bit signed integer that wraps around. */
  function ToInt32(x: int): (r: int)
    ensures -0x8000_0000 <= r <= 0x7FFF_FFFF
    ensures -0x8000_0000 <= x <= 0x7FFF_FFFF ==> r == x
    ensures r % 0x1_0000_0000 == x % 0x1_0000_0000
  {
    var m := x % 0x1_0000_0000;
    if m < INT_MODULUS / 2 then m else m - INT_MODULUS
  }

  lemma WrapsBy(x: int) returns (k: int)
    ensures ToInt64(x) == x + k * WORD_MODULUS
  {
    k := -(x / WORD_MODULUS) - (if x % 0x1_0000_0000_0000_0000 <= INT64_MAX then 0 else 1);
  }

  lemma WrapAgain(x: int, k: int)
    ensures ToInt64(x + k * WORD_MODULUS) == ToInt64(x)
  {
  }

  /** Wrapping at every step of a sum of products is wrapping once at the end. */
  lemma WrapLinear(a: int, d: int, b: int)
    ensures ToInt64(ToInt64(a) + d * ToInt64(b)) == ToInt64(a + d * b)
  {
    var j := WrapsBy(a);
    var k := WrapsBy(b);
    assert d * (b + k * WORD_MODULUS) == d * b + (d * k) * WORD_MODULUS;
    assert ToInt64(a) + d * ToInt64(b) == (a + d * b) + (j + d * k) * WORD_MODULUS;
    WrapAgain(a + d * b, j + d * k);
  }
}
