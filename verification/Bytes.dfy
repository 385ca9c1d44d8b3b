/** Byte strings, the numbers they denote, and the ASN strings of the arithmetic
    kernel functions: minimal-length signed big-endian. Only non-negative numbers
    are ever stored as strings; a negative intermediate result is handled as an int. */
module ByteStrings {

  type byte = b: int | 0 <= b < 256
  type Bytes = seq<byte>

  function Power256(k: nat): (p: nat)
    ensures p >= 1
  {
    if k == 0 then 1 else 256 * Power256(k - 1)
  }

  function BigEndian(s: Bytes): nat {
    if s == [] then 0 else BigEndian(s[..|s| - 1]) * 256 + s[|s| - 1]
  }

  function LittleEndian(s: Bytes): nat {
    if s == [] then 0 else s[0] + 256 * LittleEndian(s[1..])
  }

  function Reverse(s: Bytes): (r: Bytes)
    ensures |r| == |s|
  {
    if s == [] then [] else Reverse(s[1..]) + [s[0]]
  }

  function Zeros(k: nat): (z: Bytes)
    ensures |z| == k
  {
    seq(k, _ => 0)
  }

  /** Strings put together, one after another. */
  function Concat(parts: seq<Bytes>): Bytes {
    if parts == [] then [] else parts[0] + Concat(parts[1..])
  }

  lemma {:induction false} ConcatAppend(a: seq<Bytes>, b: seq<Bytes>)
    ensures Concat(a + b) == Concat(a) + Concat(b)
  {
    if a == [] {
      assert a + b == b;
    } else {
      assert (a + b)[1..] == a[1..] + b;
      ConcatAppend(a[1..], b);
    }
  }

  /** The ASN string of a non-negative number. */
  function Asn(n: nat): (s: Bytes)
    ensures |s| >= 1 && BigEndian(s) == n
    decreases n
  {
    if n < 128 then
      assert [n][..0] == [];
      [n]
    else
      var rest := Asn(n / 256);
      assert (rest + [n % 256])[..|rest|] == rest;
      rest + [n % 256]
  }

  /** Zero extension on the left to at least len bytes. */
  function Extend(s: Bytes, len: nat): (r: Bytes)
    ensures |r| == if |s| < len then len else |s|
  {
    if |s| < len then Zeros(len - |s|) + s else s
  }

  lemma LastByte(n: nat, q: nat)
    ensures 2 * n < 256 * (256 * q) <==> 2 * (n / 256) < 256 * q
  {}

  lemma {:induction false} AsnLength(n: nat, k: nat)
    requires k >= 1
    ensures |Asn(n)| <= k <==> 2 * n < Power256(k)
  {
    assert Power256(k) == 256 * Power256(k - 1);
    if n >= 128 {
      assert |Asn(n)| == |Asn(n / 256)| + 1;
    }
    if k == 1 {
      assert Power256(0) == 1;
    } else if n >= 128 {
      AsnLength(n / 256, k - 1);
      assert Power256(k - 1) == 256 * Power256(k - 2);
      LastByte(n, Power256(k - 2));
    }
  }

  lemma {:induction false} BigEndianZeros(k: nat, s: Bytes)
    ensures BigEndian(Zeros(k) + s) == BigEndian(s)
  {
    if s != [] {
      var t := Zeros(k) + s;
      assert t[..|t| - 1] == Zeros(k) + s[..|s| - 1];
      BigEndianZeros(k, s[..|s| - 1]);
    } else if k > 0 {
      assert Zeros(k) + s == Zeros(k);
      assert Zeros(k)[..k - 1] == Zeros(k - 1) + s;
      BigEndianZeros(k - 1, s);
    }
  }

  lemma ExtendKeepsValue(s: Bytes, len: nat)
    ensures BigEndian(Extend(s, len)) == BigEndian(s)
  {
    if |s| < len { BigEndianZeros(len - |s|, s); }
  }

  lemma {:induction false} BigEndianBound(s: Bytes)
    ensures BigEndian(s) < Power256(|s|)
  {
    if s != [] { BigEndianBound(s[..|s| - 1]); }
  }

  lemma {:induction false} ReverseValue(s: Bytes)
    ensures LittleEndian(Reverse(s)) == BigEndian(s)
  {
    if s != [] {
      ReverseSnoc(s[..|s| - 1], s[|s| - 1]);
      assert s[..|s| - 1] + [s[|s| - 1]] == s;
      ReverseValue(s[..|s| - 1]);
    }
  }

  lemma {:induction false} ReverseSnoc(s: Bytes, b: byte)
    ensures Reverse(s + [b]) == [b] + Reverse(s)
  {
    if s != [] {
      assert (s + [b])[1..] == s[1..] + [b];
      ReverseSnoc(s[1..], b);
    } else {
      assert (s + [b])[1..] == [];
    }
  }

  /** Two strings of one length that denote the same number are equal. */
  lemma {:induction false} BigEndianInjective(s: Bytes, t: Bytes)
    requires |s| == |t| && BigEndian(s) == BigEndian(t)
    ensures s == t
  {
    if s != [] {
      BigEndianInjective(s[..|s| - 1], t[..|t| - 1]);
      assert s == s[..|s| - 1] + [s[|s| - 1]];
      assert t == t[..|t| - 1] + [t[|t| - 1]];
    }
  }
}
