/** Decimal numerals, as Python's str(n) writes and int(s) reads them. */
module Decimals {

  predicate IsDigit(c: char) {
    '0' <= c <= '9'
  }

  function DigitChar(d: nat): (c: char)
    requires d < 10
    ensures IsDigit(c)
  {
    '0' + d as char
  }

  function DigitValue(c: char): (d: nat)
    requires IsDigit(c)
    ensures d < 10
  {
    (c - '0') as nat
  }

  predicate AllDigits(s: string) {
    forall i :: 0 <= i < |s| ==> IsDigit(s[i])
  }

  function Decimal(n: nat): (s: string)
    ensures s != [] && AllDigits(s)
  {
    if n < 10 then [DigitChar(n)] else Decimal(n / 10) + [DigitChar(n % 10)]
  }

  function Value(s: string): nat
    requires AllDigits(s)
  {
    if s == [] then 0 else 10 * Value(s[..|s| - 1]) + DigitValue(s[|s| - 1])
  }

  lemma {:induction false} ValueOfDecimal(n: nat)
    ensures Value(Decimal(n)) == n
  {
    if n >= 10 {
      ValueOfDecimal(n / 10);
      var s := Decimal(n);
      assert s[..|s| - 1] == Decimal(n / 10);
    } else {
      assert Decimal(n)[..0] == [];
    }
  }

  /** `line.startswith(str(id))` for a line that begins with the numeral of `other` and
      goes on with something that is not a digit, or ends there. */
  lemma StartsWithNumeral(id: nat, other: nat, rest: string)
    requires rest != [] ==> !IsDigit(rest[0])
    ensures Decimal(id) <= Decimal(other) + rest <==> Decimal(id) <= Decimal(other)
  {
    var a, b := Decimal(id), Decimal(other);
    if |a| <= |b| {
      assert (b + rest)[..|a|] == b[..|a|];
    } else if rest != [] {
      assert (b + rest)[|b|] == rest[0] && IsDigit(a[|b|]);
    }
  }
}
