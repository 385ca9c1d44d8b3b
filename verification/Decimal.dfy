/** Decimal digits, as characters '0' to '9'. */
module Decimals {
  import opened ByteStrings

  const ZERO: byte := 48
  const MINUS: byte := 45

  predicate IsDigits(s: Bytes) {
    forall i :: 0 <= i < |s| ==> 48 <= s[i] <= 57
  }

  /** The number that digits denote; none denote zero. */
  function DigitsValue(s: Bytes): nat
    requires IsDigits(s)
  {
    if s == [] then 0 else 10 * DigitsValue(s[..|s| - 1]) + (s[|s| - 1] - 48)
  }

  function Digits(n: nat): (s: Bytes)
    ensures s != [] && IsDigits(s)
  {
    if n < 10 then [48 + n] else Digits(n / 10) + [48 + n % 10]
  }

  lemma {:induction false} DigitsRoundTrip(n: nat)
    ensures DigitsValue(Digits(n)) == n
  {
    var s := Digits(n);
    if n < 10 {
      assert s[..0] == [];
    } else {
      DigitsRoundTrip(n / 10);
      assert s[..|s| - 1] == Digits(n / 10);
    }
  }

  /** An integer turned into a string. */
  function Decimal(n: int): (s: Bytes)
    ensures s != []
  {
    if n < 0 then [MINUS] + Digits(-n) else Digits(n)
  }

  lemma DecimalInjective(m: int, n: int)
    requires Decimal(m) == Decimal(n)
    ensures m == n
  {
    assert Decimal(m)[0] == MINUS <==> m < 0;
    assert Decimal(n)[0] == MINUS <==> n < 0;
    assert m < 0 ==> Decimal(m)[1..] == Digits(-m);
    assert n < 0 ==> Decimal(n)[1..] == Digits(-n);
    DigitsRoundTrip(if m < 0 then -m else m);
    DigitsRoundTrip(if n < 0 then -n else n);
  }
}
