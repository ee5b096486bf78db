/** Decimal text of numbers. */
module Decimals {

  function DigitChar(d: nat): (c: char)
    requires d < 10
    ensures '0' <= c <= '9'
  {
    '0' + d as char
  }

  // str(n)
  function Decimal(n: nat): (s: string)
    ensures s != ""
  {
    if n < 10 then [DigitChar(n)] else Decimal(n / 10) + [DigitChar(n % 10)]
  }

  function ValueOf(digits: string): nat {
    if digits == "" then 0 else
      var c := digits[|digits| - 1];
      10 * ValueOf(digits[..|digits| - 1]) + if '0' <= c <= '9' then c as nat - '0' as nat else 0
  }

  /** The text has the number's value, consists of digits, and has no leading zero. */
  lemma {:induction false} DecimalReads(n: nat)
    ensures ValueOf(Decimal(n)) == n && forall i :: 0 <= i < |Decimal(n)| ==> '0' <= Decimal(n)[i] <= '9'
    ensures n > 0 ==> Decimal(n)[0] != '0'
  {
    if n < 10 {
      assert Decimal(n)[..0] == "";
    } else {
      DecimalReads(n / 10);
      assert Decimal(n)[..|Decimal(n)| - 1] == Decimal(n / 10);
    }
  }
}
