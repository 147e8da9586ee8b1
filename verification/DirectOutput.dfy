/** Numbers that the kernel prints without the printf engine (`put_direct_u32`, `put_direct_hex32`). */
module DirectOutput {
  import opened Prelude
  import opened Numerals

  /**
   put_direct_u32 sends the same digits as the engine prints for %u. Its branch for a digit
   above 9, which would repeat the turn unchanged for ever, cannot be reached.
   */
  method PutDirectU32(val: nat) returns (sent: string)
    requires val < INT_MODULUS
    ensures sent == Digits(10, val)
  {
    sent := "";
    if val == 0 {
      sent := sent + ['0'];
      return;
    }
    var rest := val;
    var div := 1_000_000_000;
    var started := false;
    ghost var j: nat := 10;
    FirstDivisor(val);
    while div > 0
      invariant div == (if j == 0 then 0 else Pow(10, j - 1)) && rest == val % Pow(10, j)
      invariant sent == Produced(10, val, j) && (started <==> sent != "")
      decreases div
    {
      j := j - 1;
      DecimalPlace(val, j, rest, started);
      if rest >= div {
        started := true;
        var digit := rest / div;
        assert digit <= 9;
        rest := rest - digit * div;
        sent := sent + ['0' + digit as char];
      } else if started {
        sent := sent + ['0'];
      }
      NextDivisor(j);
      div := div / 10;
    }
  }

  lemma FirstDivisor(val: nat)
    requires val < INT_MODULUS
    ensures Pow(10, 9) == 1_000_000_000 && val < Pow(10, 10) && val % Pow(10, 10) == val
  {
    assert Pow(10, 5) == 100_000;
    DivUnique(val, Pow(10, 10), 0, val);
  }

  /** put_direct_hex32 sends what the engine prints for %#x. */
  method PutDirectHex32(val: nat) returns (sent: string)
    requires val < INT_MODULUS
    ensures sent == "0x" + Digits(16, val)
  {
    sent := ['0', 'x'];
    assert Pow(16, 8) == INT_MODULUS by {
      assert Pow(16, 4) == 0x1_0000;
      PowAdd(16, 4, 4);
    }
    var started := false;
    for place := 8 downto 0
      invariant sent == "0x" + Produced(16, val, place) && (started <==> Produced(16, val, place) != "")
    {
      PlaceStep(16, val, place);
      var placeValue := High(16, val, place) % 16;
      if placeValue == 0 && !started && place != 0 {
        continue;
      }
      started := true;
      sent := sent + [if placeValue <= 9 then '0' + placeValue as char else 'a' + (placeValue - 10) as char];
    }
  }
}
