/** How the credential store writes integers as text (`String(n)`) and reads
    them back (`Number(text)`), for the decimal texts it writes itself. */
module Decimal {

  predicate IsDigit(c: char) {
    '0' <= c <= '9'
  }

  predicate IsDigits(s: string) {
    forall i :: 0 <= i < |s| ==> IsDigit(s[i])
  }

  /** Text that `Number` reads as an integer: digits, optionally after a minus sign. */
  predicate IsIntText(s: string) {
    (|s| > 0 && IsDigits(s)) || (|s| > 1 && s[0] == '-' && IsDigits(s[1..]))
  }

  function DigitChar(d: nat): char
    requires d < 10
  {
    ('0' as int + d) as char
  }

  /** `String(n)` for a non-negative integer. */
  function NatToText(n: nat): (s: string)
    ensures |s| > 0 && IsDigits(s)
    decreases n
  {
    if n < 10 then [DigitChar(n)] else NatToText(n / 10) + [DigitChar(n % 10)]
  }

  /** `Number(s)` for a string of decimal digits. */
  function TextToNat(s: string): nat
    requires IsDigits(s)
  {
    if s == [] then 0 else 10 * TextToNat(s[..|s| - 1]) + (s[|s| - 1] as int - '0' as int)
  }

  /** `String(i)` for any integer. */
  function IntToText(i: int): (s: string)
    ensures IsIntText(s)
  {
    if i < 0 then "-" + NatToText(-i) else NatToText(i)
  }

  /** `Number(s)` for integer text. */
  function TextToInt(s: string): int
    requires IsIntText(s)
  {
    if s[0] == '-' then -(TextToNat(s[1..]) as int) else TextToNat(s)
  }

  lemma {:induction false} NatRoundTrip(n: nat)
    ensures TextToNat(NatToText(n)) == n
  {
    if n >= 10 {
      NatRoundTrip(n / 10);
      var s := NatToText(n);
      assert s[..|s| - 1] == NatToText(n / 10);
    }
  }

  lemma IntRoundTrip(i: int)
    ensures TextToInt(IntToText(i)) == i
  {
    if i < 0 {
      NatRoundTrip(-i);
      assert IntToText(i)[1..] == NatToText(-i);
    } else {
      NatRoundTrip(i);
    }
  }
}
