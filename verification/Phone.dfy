/** Phone numbers as eight-byte keys: the loop that works with seven digits at a time computes
    what encoding the whole number at once does. */
module Phones {
  import opened ByteStrings
  import opened Decimals
  import opened Modular
  import opened NumberTheory

  const LIMIT := 0x1_0000_0000_0000_0000

  /** Ten million, as the ASN string that the source has. */
  const TEN_MILLION: Bytes := [0, 152, 150, 128]

  /** A plus sign, or whatever stands in its place, and at least one digit. */
  predicate IsPhone(phone: Bytes) {
    |phone| >= 2 && IsDigits(phone[1..])
  }

  function PhoneValue(phone: Bytes): nat
    requires IsPhone(phone)
  {
    DigitsValue(phone[1..])
  }

  /** The number as machine words of 64 bits have it. */
  function Residue(phone: Bytes): nat
    requires IsPhone(phone)
  {
    PhoneValue(phone) % LIMIT
  }

  /** The key of a phone number: eight bytes below 2^63, and nine from there on, the first being zero. */
  function PhoneKey(phone: Bytes): Bytes
    requires IsPhone(phone)
  {
    Extend(Asn(Residue(phone)), 8)
  }

  /** The whole number encoded at once. */
  function OneShot(phone: Bytes): Bytes
    requires IsPhone(phone)
  {
    Extend(Asn(PhoneValue(phone)), 8)
  }

  lemma {:induction false} DigitsJoin(a: Bytes, b: Bytes)
    requires IsDigits(a) && IsDigits(b)
    ensures DigitsValue(a + b) == DigitsValue(a) * Pow(10, |b|) + DigitsValue(b)
  {
    if b == [] {
      assert a + b == a;
    } else {
      var n := |b| - 1;
      DigitsJoin(a, b[..n]);
      assert (a + b)[..|a| + n] == a + b[..n];
      Shift(DigitsValue(a), Pow(10, n), DigitsValue(b[..n]), b[n] - 48);
    }
  }

  lemma Shift(a: int, p: int, b: int, d: int)
    ensures 10 * (a * p + b) + d == a * (10 * p) + (10 * b + d)
  {}

  /** Reducing factors and terms on the way does not change the sum in the end. */
  lemma LimbAdded(rest: int, limb: int, power: int, m: int)
    requires m > 0
    ensures (rest % m + limb * (power % m) % m) % m == (limb * power + rest) % m
  {
    ModMulRight(limb, power, m);
    ModSum(rest, limb * power, m);
  }

  lemma ModMulRight(a: int, b: int, m: int)
    requires m > 0
    ensures a * (b % m) % m == a * b % m
  {
    DivMod(b, m);
    assert a * b == a * (b % m) + (a * (b / m)) * m;
    ModShift(a * (b % m), a * (b / m), m);
  }

  lemma TenMillion()
    ensures BigEndian(TEN_MILLION) == Pow(10, 7) == 10000000
  {
    var t := TEN_MILLION;
    assert t[..3][..2] == t[..2] && t[..2][..1] == t[..1] && t[..1][..0] == [];
    assert BigEndian(t[..1]) == 0;
    assert BigEndian(t[..2]) == 152;
    assert BigEndian(t[..3]) == 152 * 256 + 150;
    assert Pow(10, 2) == 100 && Pow(10, 4) == 10000 && Pow(10, 6) == 1000000;
  }

  /** After the digits in tail, the number so far and the multiplier for the next limb. */
  ghost predicate LimbsSoFar(num: Bytes, multiplier: Bytes, tail: Bytes)
    requires IsDigits(tail)
  {
    num == Asn(DigitsValue(tail) % LIMIT) && multiplier == Asn(Pow(10, |tail|) % LIMIT)
  }

  /** asn_add and asn_mult: the result reduced, as a minimal signed string. */
  function AsnAdd(a: Bytes, b: Bytes, modulus: nat): Bytes
    requires modulus > 0
  {
    Asn((BigEndian(a) + BigEndian(b)) % modulus)
  }

  function AsnMult(a: Bytes, b: Bytes, modulus: nat): Bytes
    requires modulus > 0
  {
    Asn(BigEndian(a) * BigEndian(b) % modulus)
  }

  lemma AsnLimb(rest: nat, limb: nat, power: nat, m: nat)
    requires m > 0
    ensures AsnAdd(Asn(rest % m), AsnMult(Asn(limb), Asn(power % m), m), m) == Asn((limb * power + rest) % m)
  {
    LimbAdded(rest, limb, power, m);
  }

  lemma LimbStep(num: Bytes, multiplier: Bytes, tail: Bytes, limb: Bytes)
    requires IsDigits(tail) && IsDigits(limb) && LimbsSoFar(num, multiplier, tail)
    ensures AsnAdd(num, AsnMult(Asn(DigitsValue(limb)), multiplier, LIMIT), LIMIT) == Asn(DigitsValue(limb + tail) % LIMIT)
  {
    DigitsJoin(limb, tail);
    AsnLimb(DigitsValue(tail), DigitsValue(limb), Pow(10, |tail|), LIMIT);
  }

  lemma MultiplierStep(multiplier: Bytes, k: nat)
    requires multiplier == Asn(Pow(10, k) % LIMIT)
    ensures AsnMult(multiplier, TEN_MILLION, LIMIT) == Asn(Pow(10, k + 7) % LIMIT)
  {
    TenMillion();
    PowAdd(10, k, 7);
    ModMulRight(Pow(10, 7), Pow(10, k), LIMIT);
  }

  /** Of the digits, str is still to be read and tail has been. */
  ghost predicate Reading(digits: Bytes, str: Bytes, tail: Bytes, num: Bytes, multiplier: Bytes) {
    && str != [] && digits == str + tail
    && IsDigits(str) && IsDigits(tail) && LimbsSoFar(num, multiplier, tail)
  }

  lemma ReadingStep(digits: Bytes, str: Bytes, tail: Bytes, num: Bytes, multiplier: Bytes)
    requires Reading(digits, str, tail, num, multiplier) && |str| > 7
    ensures var limb := str[|str| - 7..];
      Reading(digits, str[..|str| - 7], limb + tail,
              AsnAdd(num, AsnMult(Asn(DigitsValue(limb)), multiplier, LIMIT), LIMIT),
              AsnMult(multiplier, TEN_MILLION, LIMIT))
  {
    var limb := str[|str| - 7..];
    LimbStep(num, multiplier, tail, limb);
    MultiplierStep(multiplier, |tail|);
    assert str == str[..|str| - 7] + limb;
  }

  /** The key is the whole number encoded at once exactly when the number fits. */
  lemma OneShotExactly(phone: Bytes)
    requires IsPhone(phone)
    ensures PhoneKey(phone) == OneShot(phone) <==> PhoneValue(phone) < LIMIT
  {
    var n := PhoneValue(phone);
    ExtendKeepsValue(Asn(n), 8);
    ExtendKeepsValue(Asn(n % LIMIT), 8);
    if n < LIMIT {
      ModSmall(n, LIMIT);
    }
  }

  /** phoneToNum on a machine with 32-bit integers. */
  method PhoneToNum(phone: Bytes) returns (key: Bytes)
    requires IsPhone(phone)
    ensures key == PhoneKey(phone)
    ensures key == OneShot(phone) <==> PhoneValue(phone) < LIMIT
  {
    var num: Bytes, multiplier: Bytes := [0], [1];
    var str := phone[1..];
    ghost var tail: Bytes := [];
    while |str| > 7
      invariant Reading(phone[1..], str, tail, num, multiplier)
    {
      var limb := str[|str| - 7..];
      ReadingStep(phone[1..], str, tail, num, multiplier);
      num := AsnAdd(num, AsnMult(Asn(DigitsValue(limb)), multiplier, LIMIT), LIMIT);
      multiplier := AsnMult(multiplier, TEN_MILLION, LIMIT);
      tail := limb + tail;
      str := str[..|str| - 7];
    }
    LimbStep(num, multiplier, tail, str);
    num := AsnAdd(num, AsnMult(Asn(DigitsValue(str)), multiplier, LIMIT), LIMIT);
    key := Extend(num, 8);
    OneShotExactly(phone);
  }

  // ---------------------------------------------------------------- one key, one number

  /** Written without needless zeros. */
  predicate Canonical(phone: Bytes) {
    IsPhone(phone) && phone[0] == 43 && (phone[1] != ZERO || |phone| == 2)
  }

  lemma {:induction false} DigitsCanonical(s: Bytes)
    requires s != [] && IsDigits(s) && (s[0] != ZERO || |s| == 1)
    ensures Digits(DigitsValue(s)) == s
    ensures s[0] != ZERO ==> DigitsValue(s) > 0
  {
    var n := |s| - 1;
    if n == 0 {
      assert s[..0] == [];
    } else {
      var front, last := DigitsValue(s[..n]), s[n] - 48;
      DigitsCanonical(s[..n]);
      assert DigitsValue(s) == 10 * front + last;
      assert DigitsValue(s) / 10 == front && DigitsValue(s) % 10 == last;
      assert s == s[..n] + [s[n]];
    }
  }

  /** Two numbers have one key exactly when they leave one residue: below 2^64, when they differ
      in nothing but zeros in front. */
  lemma KeyIsNumber(p: Bytes, q: Bytes)
    requires IsPhone(p) && IsPhone(q)
    ensures PhoneKey(p) == PhoneKey(q) <==> Residue(p) == Residue(q)
  {
    ExtendKeepsValue(Asn(Residue(p)), 8);
    ExtendKeepsValue(Asn(Residue(q)), 8);
  }

  lemma KeyLength(p: Bytes)
    requires IsPhone(p)
    ensures |PhoneKey(p)| == if Residue(p) < LIMIT / 2 then 8 else 9
  {
    assert Power256(8) == LIMIT by {
      assert Power256(2) == 0x1_0000 && Power256(4) == 0x1_0000_0000 && Power256(6) == 0x1_0000_0000_0000;
    }
    assert Power256(9) == 256 * Power256(8);
    AsnLength(Residue(p), 8);
    AsnLength(Residue(p), 9);
  }

  lemma KeyInjective(p: Bytes, q: Bytes)
    requires Canonical(p) && Canonical(q) && PhoneValue(p) < LIMIT && PhoneValue(q) < LIMIT
    requires PhoneKey(p) == PhoneKey(q)
    ensures p == q
  {
    KeyIsNumber(p, q);
    ModSmall(PhoneValue(p), LIMIT);
    ModSmall(PhoneValue(q), LIMIT);
    DigitsCanonical(p[1..]);
    DigitsCanonical(q[1..]);
    assert p == [p[0]] + p[1..] && q == [q[0]] + q[1..];
  }
}
