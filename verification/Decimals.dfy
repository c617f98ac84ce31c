/** Decimal texts of natural numbers: printed and read. */
module Decimals {
  import opened Text

  predicate AllDigits(t: string) {
    forall i :: 0 <= i < |t| ==> IsDigit(t[i])
  }

  /** The number a text of digits stands for. */
  function Decimal(t: string): (n: nat)
    requires AllDigits(t)
  {
    if t == [] then 0
    else
      assert IsDigit(t[|t| - 1]);
      10 * Decimal(t[..|t| - 1]) + (t[|t| - 1] as int - '0' as int)
  }

  /** What `ss << n` writes. */
  function NatText(n: nat): string {
    if n < 10 then [('0' as int + n) as char] else NatText(n / 10) + [('0' as int + n % 10) as char]
  }

  lemma {:induction false} NatTextBack(n: nat)
    ensures NatText(n) != [] && AllDigits(NatText(n)) && Decimal(NatText(n)) == n
    ensures n > 0 ==> NatText(n)[0] != '0'
    ensures n == 0 ==> NatText(n) == "0"
  {
    if n >= 10 {
      NatTextBack(n / 10);
      var s, d := NatText(n / 10), ('0' as int + n % 10) as char;
      assert (s + [d])[..|s|] == s;
    } else {
      assert NatText(n)[..0] == [];
    }
  }

  /** In base ten. */
  lemma Twelve()
    ensures NatText(12) == "12" && AllDigits("12") && Decimal("12") == 12
  {
    NatTextBack(12);
    assert NatText(1) == "1";
  }
}
