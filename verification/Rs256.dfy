/** RS256 signatures (RFC 8017, sections 5.2.1, 8.2.1 and 9.2): PKCS#1 v1.5 padding and the
    private-key operation by Chinese remainders. SHA-256 is any function with 32-byte results. */
module Rs256 {
  import opened ByteStrings
  import opened Wrappers
  import opened Modular
  import opened Scalars
  import opened NumberTheory

  datatype SignError = BadRange

  datatype RsaKey = RsaKey(n: nat, e: nat, p: nat, q: nat, dP: nat, dQ: nat, qInv: nat)

  /** Section 3.2 of RFC 8017: what the parts of a private key have to do with each other. */
  ghost predicate Consistent(key: RsaKey) {
    && IsPrime(key.p) && IsPrime(key.q) && key.p != key.q && key.n == key.p * key.q
    && key.e >= 1 && key.dP >= 1 && key.dQ >= 1
    && (key.e * key.dP - 1) % (key.p - 1) == 0
    && (key.e * key.dQ - 1) % (key.q - 1) == 0
    && (key.qInv * key.q) % key.p == 1
  }

  /** There are such keys: a small one. */
  lemma ConsistentKeyExists()
    ensures Consistent(RsaKey(33, 3, 3, 11, 1, 7, 2))
  {
    assert IsPrime(3) && IsPrime(11);
  }

  // ---------------------------------------------------------------- padding

  /** length bytes of padding; the string is doubled until it is long enough. */
  method Ps(length: int) returns (r: Result<Bytes, SignError>)
    ensures r == if length < 0 then Err(BadRange) else Ok(seq(length, _ => 255))
  {
    var str: Bytes := seq(16, _ => 255);
    while |str| < length
      invariant |str| >= 16 && forall i :: 0 <= i < |str| ==> str[i] == 255
      decreases length - |str|
    {
      str := str + str;
    }
    if length < 0 {
      return Err(BadRange);
    }
    var padding := str[..length];
    assert padding == seq(length, _ => 255);
    r := Ok(padding);
  }

  /** DigestInfo for SHA-256, up to the digest. */
  const DIGEST_INFO: Bytes := [0x30, 0x31, 0x30, 0x0d, 0x06, 0x09, 0x60, 0x86, 0x48, 0x01, 0x65, 0x03, 0x04, 0x02, 0x01,
                               0x05, 0x00, 0x04, 0x20]

  /** EMSA-PKCS1-v1_5: 00 01 FF .. FF 00 DigestInfo digest. */
  function Encoded(digest: Bytes, len: nat): (em: Bytes)
    requires |digest| == 32 && len >= 54
    ensures |em| == len
  {
    var padding: Bytes := seq(len - 54, _ => 255);
    [0, 1] + padding + [0] + DIGEST_INFO + digest
  }

  /** What a verifier reads in an encoded message: section 9.2 of RFC 8017, with the digest of
      SHA-256 (note 1), whose length is the last byte in front of it. */
  ghost predicate ReadsAs(em: Bytes, digest: Bytes) {
    && |em| >= 54 && em[0] == 0 && em[1] == 1
    && (forall i :: 2 <= i < |em| - 52 ==> em[i] == 255)
    && em[|em| - 52] == 0
    && em[|em| - 51..|em| - 32] == [0x30, 0x31, 0x30, 0x0d, 0x06, 0x09, 0x60, 0x86, 0x48, 0x01, 0x65, 0x03, 0x04, 0x02,
                                    0x01, 0x05, 0x00, 0x04, 32]
    && em[|em| - 32..] == digest
  }

  lemma EncodedReadsBack(digest: Bytes, len: nat, other: Bytes)
    requires |digest| == 32 && len >= 54
    ensures ReadsAs(Encoded(digest, len), other) <==> other == digest
  {
    var em := Encoded(digest, len);
    assert em[len - 51..len - 32] == DIGEST_INFO;
    assert em[len - 32..] == digest;
  }

  /** Section 9.2 of RFC 8017 has at least eight bytes of padding. There are that many exactly
      from 62 bytes on. */
  lemma PaddingExactly(digest: Bytes, len: nat)
    requires |digest| == 32 && len >= 54
    ensures Encoded(digest, len)[..2] == [0, 1]
    ensures (forall i :: 2 <= i < 10 ==> Encoded(digest, len)[i] == 255) <==> len >= 62
  {
    var em := Encoded(digest, len);
    if len < 62 {
      assert em[2 + (len - 54)] == 0;
    }
  }

  method EmsaPkcs1v15(sha256: Bytes -> Bytes, message: Bytes, len: nat) returns (r: Result<Bytes, SignError>)
    requires |sha256(message)| == 32
    ensures r == if len < 54 then Err(BadRange) else Ok(Encoded(sha256(message), len))
  {
    var t := DIGEST_INFO + sha256(message);
    var padding := Ps(len - 3 - |t|);
    if padding.Err? {
      return Err(padding.error);
    }
    assert [0, 1] + padding.value + [0] + t == Encoded(sha256(message), len);
    r := Ok([0, 1] + padding.value + [0] + t);
  }

  // ---------------------------------------------------------------- modulus length

  function Bits(n: nat): nat {
    if n == 0 then 0 else 1 + Bits(n / 2)
  }

  function Length(n: nat): nat {
    (Bits(n) + 7) / 8
  }

  lemma {:induction false} BitsBound(n: nat)
    requires n >= 1
    ensures Bits(n) >= 1 && Pow(2, Bits(n) - 1) <= n < Pow(2, Bits(n))
  {
    if n > 1 { BitsBound(n / 2); }
  }

  lemma {:induction false} PowMonotone(b: nat, e: nat, f: nat)
    requires b >= 1 && e <= f
    ensures Pow(b, e) <= Pow(b, f)
    decreases f - e
  {
    if e < f {
      PowMonotone(b, e, f - 1);
      MulAtLeast(b, Pow(b, f - 1));
    }
  }

  lemma {:induction false} Power256IsPow2(k: nat)
    ensures Power256(k) == Pow(2, 8 * k)
  {
    if k > 0 {
      Power256IsPow2(k - 1);
      PowAdd(2, 8, 8 * (k - 1));
      assert Pow(2, 4) == 16 && Pow(2, 8) == Pow(2, 4) * Pow(2, 4) by { PowAdd(2, 4, 4); }
    }
  }

  /** The length is the number of bytes of the modulus. */
  lemma LengthBound(n: nat)
    requires n >= 1
    ensures Length(n) >= 1 && Power256(Length(n) - 1) <= n < Power256(Length(n))
  {
    BitsBound(n);
    var len := Length(n);
    Power256IsPow2(len - 1);
    Power256IsPow2(len);
    PowMonotone(2, 8 * (len - 1), Bits(n) - 1);
    PowMonotone(2, Bits(n), 8 * len);
  }

  /** An encoded message is as long as the modulus, and smaller. */
  lemma EncodedFits(digest: Bytes, n: nat)
    requires |digest| == 32 && n >= 1 && Length(n) >= 54
    ensures BigEndian(Encoded(digest, Length(n))) < n
  {
    var em := Encoded(digest, Length(n));
    assert em == Zeros(1) + em[1..];
    BigEndianZeros(1, em[1..]);
    BigEndianBound(em[1..]);
    LengthBound(n);
  }

  // ---------------------------------------------------------------- private-key operation

  /** The value the ASN arithmetic arrives at, for any positive moduli. */
  function CrtValue(c: nat, key: RsaKey): nat
    requires key.p > 0 && key.q > 0 && key.n > 0
  {
    var m := Pow(c, key.dQ) % key.q;
    var d := Remainder(Pow(c, key.dP) % key.p - m, key.p);
    var d' := if d < 0 then (d + key.p) % key.p else d;
    (((((key.qInv * d') % key.p) * key.q) % key.n) + m) % key.n
  }

  /** A number below the modulus, as many bytes long as the modulus. */
  method OfLength(m: nat, n: nat) returns (s: Bytes)
    requires m < n
    ensures |s| == Length(n) && BigEndian(s) == m
  {
    s := Asn(m);
    AsnFits(m, n);
    if |s| > Length(n) {
      s := s[1..];
    } else {
      ExtendKeepsValue(s, Length(n));
      s := Extend(s, Length(n));
    }
  }

  /** The signature raised to the public exponent, written as long as the modulus, reads as the
      digest. */
  ghost predicate Opens(signature: Bytes, key: RsaKey, digest: Bytes)
    requires key.n > 0
  {
    forall em: Bytes :: |em| == Length(key.n) && BigEndian(em) == Pow(BigEndian(signature), key.e) % key.n ==>
      ReadsAs(em, digest)
  }

  method Rs256Sign(sha256: Bytes -> Bytes, message: Bytes, key: RsaKey) returns (r: Result<Bytes, SignError>)
    requires key.p > 0 && key.q > 0 && key.n > 0 && |sha256(message)| == 32
    ensures Length(key.n) < 54 ==> r == Err(BadRange)
    ensures Length(key.n) >= 54 ==> r.Ok? && |r.value| == Length(key.n)
    ensures Length(key.n) >= 54 ==>
      BigEndian(r.value) == CrtValue(BigEndian(Encoded(sha256(message), Length(key.n))), key)
    ensures Length(key.n) >= 54 && Consistent(key) ==>
      Pow(BigEndian(r.value), key.e) % key.n == BigEndian(Encoded(sha256(message), Length(key.n)))
    ensures Length(key.n) >= 54 && Consistent(key) ==> Opens(r.value, key, sha256(message))
  {
    var len := Length(key.n);
    var em := EmsaPkcs1v15(sha256, message, len);
    if em.Err? {
      return Err(em.error);
    }
    var c := BigEndian(em.value);
    var m := Pow(c, key.dQ) % key.q;
    var d := Remainder(Pow(c, key.dP) % key.p - m, key.p);
    if d < 0 {
      d := (d + key.p) % key.p;
    }
    m := (((((key.qInv * d) % key.p) * key.q) % key.n) + m) % key.n;
    var signature := OfLength(m, key.n);
    if Consistent(key) {
      SignedMessageVerifies(sha256(message), key, signature);
    }
    r := Ok(signature);
  }

  /** An ASN string one byte longer than the modulus starts with the zero that keeps it positive. */
  lemma AsnFits(m: nat, n: nat)
    requires m < n
    ensures |Asn(m)| <= Length(n) + 1
    ensures |Asn(m)| > Length(n) ==> BigEndian(Asn(m)[1..]) == m
  {
    var len, s := Length(n), Asn(m);
    LengthBound(n);
    AsnLength(m, len + 1);
    if |s| > len {
      LeadingByte(s);
      BigEndianBound(s[1..]);
      if s[0] >= 1 { MulAtLeast(s[0], Power256(len)); }
    }
  }

  lemma {:induction false} LeadingByte(s: Bytes)
    requires s != []
    ensures BigEndian(s) == s[0] * Power256(|s| - 1) + BigEndian(s[1..])
  {
    if |s| == 1 {
      assert s[..0] == [] && s[1..] == [];
    } else {
      var t := s[..|s| - 1];
      LeadingByte(t);
      assert t[1..] == s[1..][..|s| - 2];
      assert s[0] * Power256(|s| - 1) == (s[0] * Power256(|s| - 2)) * 256;
    }
  }

  // ---------------------------------------------------------------- correctness

  /** The sign fix-up leaves the residue of the difference. */
  lemma FixedUp(a: int, p: nat)
    requires p > 0
    ensures var d := Remainder(a, p); 0 <= (if d < 0 then (d + p) % p else d) == a % p
  {
    if a < 0 {
      var q, r := (-a) / p, (-a) % p;
      DivMod(-a, p);
      if r == 0 {
        ModUnique(a, -q, 0, p);
        ModSmall(0, p);
      } else {
        assert a == (-q - 1) * p + (p - r);
        ModUnique(a, -q - 1, p - r, p);
        ModSmall(p - r, p);
      }
    }
  }

  /** h*q is d modulo p, when h is qInv*d. */
  lemma InverseCancels(d: int, p: nat, q: nat, qInv: nat)
    requires p > 0 && (qInv * q) % p == 1
    ensures (((qInv * d) % p) * q) % p == d % p
  {
    ModMul(qInv * d, q, p);
    MulSwaps(qInv, d, q);
    ModMul(qInv * q, d, p);
  }

  lemma RecombinedInRange(h: nat, m2: nat, p: nat, q: nat)
    requires h < p && m2 < q
    ensures 0 <= h * q && h * q + m2 < p * q
    ensures (h * q + m2) % q == m2
  {
    MulLess(h, p, q);
    ModShift(m2, h, q);
    ModSmall(m2, q);
  }

  /** Garner's recombination has both residues, also when q exceeds p and m1 - m2 is
      far below zero. */
  lemma Recombined(m1: nat, m2: nat, p: nat, q: nat, qInv: nat, h: nat)
    requires p > 0 && q > 0 && m1 < p && m2 < q && (qInv * q) % p == 1
    requires h == (qInv * ((m1 - m2) % p)) % p
    ensures 0 <= h * q && h * q + m2 < p * q
    ensures (h * q + m2) % q == m2 && (h * q + m2) % p == m1
  {
    var d := (m1 - m2) % p;
    RecombinedInRange(h, m2, p, q);
    InverseCancels(d, p, q, qInv);
    ModSmall(d, p);
    ModAdd(h * q, m2, p);
    ModAdd(m1 - m2, m2, p);
    ModSmall(m1, p);
  }

  lemma NoWrap(x: nat, m: nat, n: nat)
    requires x + m < n
    ensures (x % n + m) % n == x + m
  {
    ModSmall(x, n);
    ModSmall(x + m, n);
  }

  lemma CrtValueResidues(c: nat, key: RsaKey)
    requires Consistent(key)
    ensures CrtValue(c, key) < key.n
    ensures CrtValue(c, key) % key.p == Pow(c, key.dP) % key.p
    ensures CrtValue(c, key) % key.q == Pow(c, key.dQ) % key.q
  {
    var m1, m2 := Pow(c, key.dP) % key.p, Pow(c, key.dQ) % key.q;
    FixedUp(m1 - m2, key.p);
    var h := (key.qInv * ((m1 - m2) % key.p)) % key.p;
    Recombined(m1, m2, key.p, key.q, key.qInv, h);
    NoWrap(h * key.q, m2, key.n);
  }

  lemma SameResidueSamePower(x: nat, p: nat, e: nat, f: nat)
    requires IsPrime(p) && e >= 1 && f >= 1 && e % (p - 1) == f % (p - 1)
    ensures Pow(x, e) % p == Pow(x, f) % p
  {
    ModEqual(e, f, p - 1);
    ModEqual(f, e, p - 1);
    if e >= f { ExponentsModPrime(x, p, e, f); } else { ExponentsModPrime(x, p, f, e); }
  }

  /** Signing by remainders is c^d mod n, for every private exponent d the key stands for. */
  lemma CrtIsPower(c: nat, key: RsaKey, d: nat)
    requires Consistent(key) && d >= 1
    requires d % (key.p - 1) == key.dP % (key.p - 1) && d % (key.q - 1) == key.dQ % (key.q - 1)
    ensures CrtValue(c, key) == Pow(c, d) % key.n
  {
    CrtValueResidues(c, key);
    SameResidueSamePower(c, key.p, d, key.dP);
    SameResidueSamePower(c, key.q, d, key.dQ);
    Chinese(CrtValue(c, key), Pow(c, d), key.p, key.q);
    ModSmall(CrtValue(c, key), key.n);
  }

  lemma Undone(c: nat, s: nat, p: nat, e: nat, dP: nat)
    requires IsPrime(p) && e >= 1 && dP >= 1 && (e * dP - 1) % (p - 1) == 0 && s % p == Pow(c, dP) % p
    ensures Pow(s, e) % p == c % p
  {
    PowMod(s, e, p);
    PowMod(Pow(c, dP), e, p);
    PowMul(c, dP, e);
    assert dP * e == e * dP >= 1 by { MulAtLeast(e, dP); }
    ExponentsModPrime(c, p, e * dP, 1);
    assert Pow(c, 1) == c * Pow(c, 0) == c;
  }

  /** Raising a signature to the public exponent gives the encoded message back. */
  lemma SignatureVerifies(c: nat, key: RsaKey)
    requires Consistent(key) && c < key.n
    ensures Pow(CrtValue(c, key), key.e) % key.n == c
  {
    CrtValueResidues(c, key);
    Undone(c, CrtValue(c, key), key.p, key.e, key.dP);
    Undone(c, CrtValue(c, key), key.q, key.e, key.dQ);
    Chinese(Pow(CrtValue(c, key), key.e), c, key.p, key.q);
    ModSmall(c, key.n);
  }

  /** From message to signature and back, for every modulus of at least 54 bytes. */
  lemma SignedMessageVerifies(digest: Bytes, key: RsaKey, signature: Bytes)
    requires Consistent(key) && |digest| == 32 && Length(key.n) >= 54
    requires BigEndian(signature) == CrtValue(BigEndian(Encoded(digest, Length(key.n))), key)
    ensures Pow(BigEndian(signature), key.e) % key.n == BigEndian(Encoded(digest, Length(key.n)))
    ensures Opens(signature, key, digest)
  {
    EncodedFits(digest, key.n);
    SignatureVerifies(BigEndian(Encoded(digest, Length(key.n))), key);
    forall em: Bytes | |em| == Length(key.n) && BigEndian(em) == Pow(BigEndian(signature), key.e) % key.n
      ensures ReadsAs(em, digest)
    {
      BigEndianInjective(em, Encoded(digest, Length(key.n)));
      EncodedReadsBack(digest, Length(key.n), digest);
    }
  }
}
