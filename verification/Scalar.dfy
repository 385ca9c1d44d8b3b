/** Scalars modulo the order of the ristretto255 group (section 4.4 of RFC 9496). A scalar
    object holds the ASN string of a number in 0 .. ELL - 1; the model holds the number. */
module Scalars {
  import opened ByteStrings
  import opened Modular

  const ELL: int := 0x1000000000000000000000000000000014def9dea2f79cd65812631a5cf5d3ed

  type Scalar = n: int | 0 <= n < ELL

  /** Remainder as the ASN kernel functions compute it: the sign follows the dividend. */
  function Remainder(x: int, m: int): (r: int)
    requires m > 0
    ensures -m < r < m && (x >= 0 ==> r >= 0) && (x < 0 ==> r <= 0)
  {
    if x >= 0 then x % m else -((-x) % m)
  }

  /** A scalar from little-endian bytes of any length. */
  function FromBytes(b: Bytes): Scalar {
    LittleEndian(b) % ELL
  }

  function Plus(a: Scalar, b: Scalar): Scalar {
    (a + b) % ELL
  }

  function Minus(a: Scalar, b: Scalar): Scalar {
    var d := Remainder(a - b, ELL);
    if d < 0 then (d + ELL) % ELL else d
  }

  function Negate(a: Scalar): Scalar {
    (ELL - a) % ELL
  }

  function Times(a: Scalar, b: Scalar): Scalar {
    (a * b) % ELL
  }

  function ToBytes(a: Scalar): Bytes {
    Reverse(Extend(Asn(a), 32))
  }

  // ---------------------------------------------------------------- bytes

  lemma EllFits()
    ensures 2 * ELL < Power256(32)
  {
    assert Power256(4) == 0x1_0000_0000 by {
      assert Power256(1) == 256; assert Power256(2) == 0x10000; assert Power256(3) == 0x1000000;
    }
    assert Power256(8) == 0x1_0000_0000_0000_0000 by { PowerSum(4, 4); }
    assert Power256(16) == 0x1_0000_0000_0000_0000_0000_0000_0000_0000 by { PowerSum(8, 8); }
    PowerSum(16, 16);
  }

  lemma {:induction false} PowerSum(a: nat, b: nat)
    ensures Power256(a + b) == Power256(a) * Power256(b)
  {
    if a > 0 { PowerSum(a - 1, b); }
  }

  /** A canonical scalar survives the trip through its 32 bytes. */
  lemma BytesRoundTrip(a: Scalar)
    ensures |ToBytes(a)| == 32
    ensures FromBytes(ToBytes(a)) == a
  {
    EllFits();
    AsnLength(a, 32);
    ExtendKeepsValue(Asn(a), 32);
    ReverseValue(Extend(Asn(a), 32));
  }

  // ---------------------------------------------------------------- ring laws

  lemma PlusCommutes(a: Scalar, b: Scalar)
    ensures Plus(a, b) == Plus(b, a)
  {}

  lemma PlusAssociates(a: Scalar, b: Scalar, c: Scalar)
    ensures Plus(Plus(a, b), c) == Plus(a, Plus(b, c))
  {
    ModAdd(a + b, c, ELL);
    ModAdd(b + c, a, ELL);
  }

  lemma TimesCommutes(a: Scalar, b: Scalar)
    ensures Times(a, b) == Times(b, a)
  {
    assert a * b == b * a;
  }

  lemma TimesAssociates(a: Scalar, b: Scalar, c: Scalar)
    ensures Times(Times(a, b), c) == Times(a, Times(b, c))
  {
    ModMul(a * b, c, ELL);
    ModMul(b * c, a, ELL);
    assert (a * b) * c == (b * c) * a;
    TimesCommutes(a, Times(b, c));
  }

  lemma Distributes(a: Scalar, b: Scalar, c: Scalar)
    ensures Times(a, Plus(b, c)) == Plus(Times(a, b), Times(a, c))
  {
    ModDistributes(a, b, c, ELL);
  }

  /** The sign fix-up makes subtraction the canonical difference. */
  lemma MinusValue(a: Scalar, b: Scalar)
    ensures Minus(a, b) == if a >= b then a - b else a - b + ELL
  {
    ModSmall(if a >= b then a - b else b - a, ELL);
    ModSmall(if a >= b then a - b else a - b + ELL, ELL);
  }

  lemma MinusUndoesPlus(a: Scalar, b: Scalar)
    ensures Plus(Minus(a, b), b) == a && Minus(Plus(a, b), b) == a
  {
    MinusValue(a, b);
    MinusValue(Plus(a, b), b);
    ModSmall(a + b, ELL);
    ModSmall(Minus(a, b) + b, ELL);
  }

  lemma NegateIsMinus(a: Scalar, b: Scalar)
    ensures Minus(a, b) == Plus(a, Negate(b))
  {
    MinusValue(a, b);
    ModSmall(ELL - b, ELL);
    ModSmall(a + Negate(b), ELL);
  }
}
