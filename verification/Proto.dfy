/** Protocol buffer encoding: base-128 varints of 32-bit integers and of ASN strings,
    length-delimited strings, and parsers that read from chunks of any size. */
module Proto {
  import opened ByteStrings
  import opened Wrappers
  import opened Modular
  import opened StringBuffers

  /** 32-bit integers as bit patterns. */
  type u32 = n: int | 0 <= n < 0x1_0000_0000
  const ASN64: int := 0x1_0000_0000_0000_0000

  function Signed(n: u32): int {
    if n < 0x8000_0000 then n else n - 0x1_0000_0000
  }

  datatype ProtoError = AsnTooLarge | BadIndex | BadTag | BadLength

  // ---------------------------------------------------------------- printing

  /** Seven bits at a time, least significant first, the top bit set on all but the last byte. */
  function VarintOf(n: nat): (s: Bytes)
    ensures |s| >= 1
  {
    if n < 128 then [n] else [128 + n % 128] + VarintOf(n / 128)
  }

  /** `>>` is logical, so that the loop ends for negative integers too. */
  method ProtoInt(value: u32) returns (str: Bytes)
    ensures str == VarintOf(value)
  {
    str := [];
    var v: int := value;
    while v >= 128
      invariant 0 <= v && str + VarintOf(v) == VarintOf(value)
    {
      str, v := str + [128 + v % 128], v / 128;
    }
    str := str + [v];
  }

  /** The digits protoAsn prints: a one-byte string as it stands, a longer one seven bits at a time. */
  function AsnDigits(v: Bytes): Bytes
    requires v != []
    decreases BigEndian(v), |v|
  {
    if |v| == 1 then v
    else
      DigitsDecrease(v);
      [128 + v[|v| - 1] % 128] + AsnDigits(Asn(BigEndian(v) / 128))
  }

  lemma DigitsDecrease(v: Bytes)
    requires |v| >= 2
    ensures var next := Asn(BigEndian(v) / 128);
      BigEndian(next) < BigEndian(v) || (BigEndian(next) == BigEndian(v) && |next| < |v|)
  {}

  predicate PrintableAsn(v: Bytes) {
    v != [] && (|v| <= 8 || (|v| == 9 && v[0] == 0))
  }

  method ProtoAsn(value: Bytes) returns (r: Result<Bytes, ProtoError>)
    ensures r.Ok? <==> PrintableAsn(value)
    ensures r.Ok? ==> r.value == AsnDigits(value)
  {
    var len := |value|;
    if len > 9 || (len == 9 && value[0] != 0) {
      return Err(AsnTooLarge);
    }
    if len == 0 {
      return Err(BadIndex);
    }
    var v, str: Bytes := value, [];
    while |v| != 1
      invariant v != [] && str + AsnDigits(v) == AsnDigits(value)
      decreases BigEndian(v), |v|
    {
      DigitsDecrease(v);
      str := str + [128 + v[|v| - 1] % 128];
      v := Asn(BigEndian(v) / 128);
    }
    r := Ok(str + v);
  }

  function StringOf(str: Bytes): Bytes {
    VarintOf(|str|) + str
  }

  method ProtoString(str: Bytes) returns (r: Bytes)
    requires |str| < 0x1_0000_0000
    ensures r == StringOf(str)
  {
    var length := ProtoInt(|str|);
    r := length + str;
  }

  method ProtoStrbuf(str: StringBuffer) returns (chunk: StringBuffer)
    requires str.Valid() && |str.Text()| < 0x1_0000_0000
    ensures fresh(chunk) && chunk.Valid() && chunk.Text() == StringOf(str.Text())
  {
    var len := str.Length();
    var length := ProtoInt(len);
    chunk := new StringBuffer(length);
    chunk.AppendBuffer(str);
  }

  // ---------------------------------------------------------------- flat parsing

  datatype Flat<T> = Fail | Got(value: T, rest: Bytes)

  /** A varint of any size and what follows it. */
  function Varint(s: Bytes): (r: Flat<nat>)
    ensures r.Got? ==> |r.rest| < |s|
  {
    if s == [] then Fail
    else if s[0] < 128 then Got(s[0], s[1..])
    else
      match Varint(s[1..])
      case Fail => Fail
      case Got(v, rest) => Got(s[0] - 128 + 128 * v, rest)
  }

  function FlatInt(s: Bytes): (r: Flat<u32>)
    ensures r.Got? ==> |r.rest| < |s|
  {
    match Varint(s)
    case Fail => Fail
    case Got(v, rest) => Got(v % 0x1_0000_0000, rest)
  }

  /** The shortest string for a number, without a sign byte. */
  function Unsigned(n: nat): Bytes {
    var s := Asn(n);
    if s[0] == 0 && |s| != 1 then s[1..] else s
  }

  function FlatAsn(s: Bytes): (r: Flat<Bytes>)
    ensures r.Got? ==> |r.rest| < |s|
  {
    match Varint(s)
    case Fail => Fail
    case Got(v, rest) => Got(Unsigned(v % ASN64), rest)
  }

  function FlatBytes(s: Bytes, len: int): Flat<Bytes> {
    if 0 <= len <= |s| then Got(s[..len], s[len..]) else Fail
  }

  function FlatString(s: Bytes): (r: Flat<Bytes>)
    ensures r.Got? ==> |r.rest| < |s|
  {
    match FlatInt(s)
    case Fail => Fail
    case Got(len, rest) => FlatBytes(rest, Signed(len))
  }

  // ---------------------------------------------------------------- round trips

  lemma {:induction false} VarintRoundTrip(n: nat, rest: Bytes)
    ensures Varint(VarintOf(n) + rest) == Got(n, rest)
  {
    var s := VarintOf(n) + rest;
    if n < 128 {
      assert s[1..] == rest;
    } else {
      assert s[1..] == VarintOf(n / 128) + rest;
      VarintRoundTrip(n / 128, rest);
    }
  }

  lemma IntRoundTrip(n: u32, rest: Bytes)
    ensures FlatInt(VarintOf(n) + rest) == Got(n, rest)
  {
    VarintRoundTrip(n, rest);
  }

  lemma StringRoundTrip(str: Bytes, rest: Bytes)
    requires |str| < 0x8000_0000
    ensures FlatString(StringOf(str) + rest) == Got(str, rest)
  {
    assert StringOf(str) + rest == VarintOf(|str|) + (str + rest);
    IntRoundTrip(|str|, str + rest);
  }

  lemma LowBits(v: Bytes)
    requires v != []
    ensures v[|v| - 1] % 128 == BigEndian(v) % 128
  {
    ModShift(v[|v| - 1], 2 * BigEndian(v[..|v| - 1]), 128);
  }

  lemma ShortAsn(n: nat)
    ensures |Asn(n)| == 1 ==> Asn(n) == [n] && n < 128
  {
    if n >= 128 { assert |Asn(n / 256)| >= 1; }
  }

  lemma VarintStep(b: byte, s: Bytes, n: nat, rest: Bytes)
    requires b >= 128 && Varint(s) == Got(n, rest)
    ensures Varint([b] + s) == Got(b - 128 + 128 * n, rest)
  {
    assert ([b] + s)[1..] == s;
  }

  /** From two bytes up, the digits denote the number, whatever the leading bytes. */
  lemma {:induction false} AsnDigitsRoundTrip(v: Bytes, rest: Bytes)
    requires |v| >= 2 || (|v| == 1 && v[0] < 128)
    ensures Varint(AsnDigits(v) + rest) == Got(BigEndian(v), rest)
    decreases BigEndian(v), |v|
  {
    if |v| == 1 {
      assert v[..0] == [] && (v + rest)[1..] == rest;
    } else {
      var next := Asn(BigEndian(v) / 128);
      DigitsDecrease(v);
      ShortAsn(BigEndian(v) / 128);
      AsnDigitsRoundTrip(next, rest);
      AsnDigitsStep(v, AsnDigits(next), rest);
    }
  }

  /** Of a single byte that is so exactly below 128. */
  lemma AsnDigitsExactly(v: Bytes, rest: Bytes)
    requires v != []
    ensures Varint(AsnDigits(v) + rest) == Got(BigEndian(v), rest) <==> |v| >= 2 || v[0] < 128
  {
    if |v| >= 2 || v[0] < 128 {
      AsnDigitsRoundTrip(v, rest);
    } else {
      assert (v + rest)[1..] == rest;
    }
  }

  lemma LowAndHigh(n: nat)
    ensures n % 128 + 128 * (n / 128) == n
  {}

  lemma AsnDigitsStep(v: Bytes, digits: Bytes, rest: Bytes)
    requires |v| >= 2 && Varint(digits + rest) == Got(BigEndian(v) / 128, rest)
    ensures Varint([128 + v[|v| - 1] % 128] + digits + rest) == Got(BigEndian(v), rest)
  {
    var n := BigEndian(v);
    var b: byte := 128 + v[|v| - 1] % 128;
    assert [b] + digits + rest == [b] + (digits + rest);
    VarintStep(b, digits + rest, n / 128, rest);
    LowBits(v);
    LowAndHigh(n);
  }

  lemma UnsignedValue(n: nat)
    ensures BigEndian(Unsigned(n)) == n
  {
    var s := Asn(n);
    if s[0] == 0 && |s| != 1 {
      assert s == Zeros(1) + s[1..];
      BigEndianZeros(1, s[1..]);
    }
  }

  lemma UnsignedLength(n: nat)
    requires n < ASN64
    ensures |Unsigned(n)| <= 8
  {
    var s := Asn(n);
    Power8();
    assert Power256(9) == 256 * Power256(8);
    AsnLength(n, 9);
    if s[0] != 0 { BigEndianHead(s); }
  }

  lemma Power8()
    ensures Power256(8) == ASN64
  {
    assert Power256(2) == 0x1_0000 by { assert Power256(1) == 256; }
    assert Power256(4) == 0x1_0000_0000 by { assert Power256(3) == 0x100_0000; }
    assert Power256(6) == 0x1_0000_0000_0000 by { assert Power256(5) == 0x100_0000_0000; }
    assert Power256(8) == ASN64 by { assert Power256(7) == 0x100_0000_0000_0000; }
  }

  lemma {:induction false} BigEndianHead(s: Bytes)
    requires s != [] && s[0] != 0
    ensures BigEndian(s) >= Power256(|s| - 1)
  {
    if |s| == 1 { assert s[..0] == []; } else { BigEndianHead(s[..|s| - 1]); }
  }

  /** For every string of eight bytes, leading zeros and top bits included, what is printed
      and parsed comes back once it is extended to eight bytes again. */
  lemma AsnRoundTrip(v: Bytes, rest: Bytes)
    requires |v| == 8
    ensures FlatAsn(AsnDigits(v) + rest).Got? && FlatAsn(AsnDigits(v) + rest).rest == rest
    ensures Extend(FlatAsn(AsnDigits(v) + rest).value, 8) == v
  {
    AsnDigitsRoundTrip(v, rest);
    BigEndianBound(v);
    Power8();
    ModSmall(BigEndian(v), ASN64);
    var n := BigEndian(v);
    UnsignedValue(n);
    UnsignedLength(n);
    ExtendKeepsValue(Unsigned(n), 8);
    BigEndianInjective(Extend(Unsigned(n), 8), v);
  }
}
