/** The proof system of a compiled statement ("A Graduate Course in Applied Cryptography",
    Boneh and Shoup, section 19.5.3): completeness, special soundness, simulation. */
module SigmaProtocol {
  import opened ByteStrings
  import opened Wrappers
  import opened Scalars
  import opened Ristretto
  import opened StatefulHash
  import opened Proofs
  import opened Statements

  // ---------------------------------------------------------------- homomorphism

  function TermPoint<P>(g: Group<P>, eq: Bytes, j: nat, points: seq<P>, g1: seq<Scalar>): P
    requires InRange(eq, |g1|, |points|) && j < eq[1]
  {
    g.mult(points[eq[2 * j + 3]], g1[eq[2 * j + 2]])
  }

  /** The sum of the first n terms. */
  function Sum<P>(g: Group<P>, eq: Bytes, n: nat, points: seq<P>, g1: seq<Scalar>): P
    requires InRange(eq, |g1|, |points|) && 1 <= n <= eq[1]
  {
    if n == 1 then TermPoint(g, eq, 0, points, g1)
    else g.add(Sum(g, eq, n - 1, points, g1), TermPoint(g, eq, n - 1, points, g1))
  }

  function Image<P>(g: Group<P>, eqs: seq<Bytes>, points: seq<P>, g1: seq<Scalar>): (g2: seq<P>)
    requires AllInRange(eqs, |g1|, |points|)
    ensures |g2| == |eqs|
  {
    seq(|eqs|, i requires 0 <= i < |eqs| => Sum(g, eqs[i], eqs[i][1], points, g1))
  }

  function Targets<P>(eqs: seq<Bytes>, ns: nat, points: seq<P>): (l: seq<P>)
    requires AllInRange(eqs, ns, |points|)
    ensures |l| == |eqs|
  {
    seq(|eqs|, i requires 0 <= i < |eqs| => points[eqs[i][0]])
  }

  /** All equations hold. */
  ghost predicate Satisfied<P>(g: Group<P>, eqs: seq<Bytes>, points: seq<P>, g1: seq<Scalar>)
    requires AllInRange(eqs, |g1|, |points|)
  {
    Image(g, eqs, points, g1) == Targets(eqs, |g1|, points)
  }

  function Responses(g1: seq<Scalar>, c: Scalar, nonce: seq<Scalar>): (r: seq<Scalar>)
    requires |nonce| == |g1|
    ensures |r| == |g1|
  {
    seq(|g1|, i requires 0 <= i < |g1| => Plus(Times(g1[i], c), nonce[i]))
  }

  lemma {:induction false} SumIsLinear<P(!new)>(g: Group<P>, eq: Bytes, n: nat, points: seq<P>,
      g1: seq<Scalar>, c: Scalar, nonce: seq<Scalar>)
    requires IsGroup(g) && |nonce| == |g1| && InRange(eq, |g1|, |points|) && 1 <= n <= eq[1]
    ensures Sum(g, eq, n, points, Responses(g1, c, nonce))
         == g.add(g.mult(Sum(g, eq, n, points, g1), c), Sum(g, eq, n, points, nonce))
  {
    var p, k := points[eq[2 * (n - 1) + 3]], eq[2 * (n - 1) + 2];
    assert MultPlus(g, p, Times(g1[k], c), nonce[k]);
    assert MultTimes(g, p, g1[k], c);
    if n > 1 {
      SumIsLinear(g, eq, n - 1, points, g1, c, nonce);
      var x, xn := Sum(g, eq, n - 1, points, g1), Sum(g, eq, n - 1, points, nonce);
      Interchange(g, g.mult(x, c), xn, g.mult(g.mult(p, g1[k]), c), g.mult(p, nonce[k]));
      assert MultAdd(g, x, g.mult(p, g1[k]), c);
    }
  }

  /** The commitments recomputed from a proof: the image of the responses, less the
      left-hand points times the challenge. */
  function Recomputed<P>(g: Group<P>, eqs: seq<Bytes>, points: seq<P>, proof: ProofValue): (k: seq<P>)
    requires AllInRange(eqs, |proof.response|, |points|)
    ensures |k| == |eqs|
  {
    seq(|eqs|, i requires 0 <= i < |eqs| =>
      g.sub(Sum(g, eqs[i], eqs[i][1], points, proof.response), g.mult(points[eqs[i][0]], proof.challenge)))
  }

  lemma RecomputedCommitments<P(!new)>(g: Group<P>, eqs: seq<Bytes>, points: seq<P>,
      g1: seq<Scalar>, c: Scalar, nonce: seq<Scalar>)
    requires IsGroup(g) && |nonce| == |g1| && AllInRange(eqs, |g1|, |points|)
    requires Satisfied(g, eqs, points, g1)
    ensures Recomputed(g, eqs, points, ProofValue(c, Responses(g1, c, nonce))) == Image(g, eqs, points, nonce)
  {
    var proof := ProofValue(c, Responses(g1, c, nonce));
    forall i | 0 <= i < |eqs|
      ensures Recomputed(g, eqs, points, proof)[i] == Image(g, eqs, points, nonce)[i]
    {
      var eq := eqs[i];
      SumIsLinear(g, eq, eq[1], points, g1, c, nonce);
      var commitment := Sum(g, eq, eq[1], points, nonce);
      assert Image(g, eqs, points, g1)[i] == Targets(eqs, |g1|, points)[i];
      var target := g.mult(points[eq[0]], c);
      assert AddCommutes(g, target, commitment);
      assert SubUndoesAdd(g, commitment, target);
    }
  }

  // ---------------------------------------------------------------- simulation

  /** The nonces that lead to given responses. */
  function NoncesFor(g1: seq<Scalar>, c: Scalar, response: seq<Scalar>): (nonce: seq<Scalar>)
    requires |response| == |g1|
    ensures |nonce| == |g1|
  {
    seq(|g1|, i requires 0 <= i < |g1| => Minus(response[i], Times(g1[i], c)))
  }

  /** Under any challenge, nonces and responses correspond one to one. */
  lemma NoncesAreResponses(g1: seq<Scalar>, c: Scalar, nonce: seq<Scalar>, response: seq<Scalar>)
    requires |nonce| == |g1| == |response|
    ensures Responses(g1, c, nonce) == response <==> nonce == NoncesFor(g1, c, response)
  {
    forall i | 0 <= i < |g1|
      ensures Plus(Times(g1[i], c), nonce[i]) == response[i] <==> nonce[i] == Minus(response[i], Times(g1[i], c))
    {
      MinusUndoesPlus(response[i], Times(g1[i], c));
      MinusUndoesPlus(nonce[i], Times(g1[i], c));
      PlusCommutes(Times(g1[i], c), nonce[i]);
    }
    assert Responses(g1, c, nonce) == response ==> forall i :: 0 <= i < |g1| ==> Responses(g1, c, nonce)[i] == response[i];
  }

  /** A proof says nothing of the witness: whatever challenge and responses are chosen, every
      witness makes just that proof, from nonces of its own, with the commitments that the
      verifier recomputes without knowing any witness. */
  lemma Simulated<P(!new)>(g: Group<P>, eqs: seq<Bytes>, points: seq<P>, g1: seq<Scalar>, proof: ProofValue)
    requires IsGroup(g) && |proof.response| == |g1| && AllInRange(eqs, |g1|, |points|)
    requires Satisfied(g, eqs, points, g1)
    ensures var nonce := NoncesFor(g1, proof.challenge, proof.response);
      && Responses(g1, proof.challenge, nonce) == proof.response
      && Image(g, eqs, points, nonce) == Recomputed(g, eqs, points, proof)
  {
    var nonce := NoncesFor(g1, proof.challenge, proof.response);
    NoncesAreResponses(g1, proof.challenge, nonce, proof.response);
    RecomputedCommitments(g, eqs, points, g1, proof.challenge, nonce);
  }

  // ---------------------------------------------------------------- Fiat-Shamir

  const LABEL: Bytes := [80, 79, 75, 83, 72, 79, 95, 82, 105, 115, 116, 114, 101, 116, 116, 111,
                         95, 83, 72, 79, 72, 77, 65, 67, 83, 72, 65, 50, 53, 54]

  function PointBytes<P>(g: Group<P>, points: seq<P>): (b: seq<Bytes>)
    ensures |b| == |points|
  {
    seq(|points|, i requires 0 <= i < |points| => g.bytes(points[i]))
  }

  function ScalarBytes(scalars: seq<Scalar>): (b: seq<Bytes>)
    ensures |b| == |scalars|
  {
    seq(|scalars|, i requires 0 <= i < |scalars| => ToBytes(scalars[i]))
  }

  /** The hash after the statement and its points. */
  function Opening<P>(g: Group<P>, h: Hmac, description: Bytes, points: seq<P>): ShoState {
    Ratcheted(h, AbsorbedAll(Absorbed(Created(h, LABEL), description), PointBytes(g, points)))
  }

  lemma {:induction false} PointsDecodable<P(!new)>(g: Group<P>, p: seq<P>, q: seq<P>)
    requires IsGroup(g) && Concat(PointBytes(g, p)) == Concat(PointBytes(g, q))
    ensures p == q
  {
    PointsLength(g, p);
    PointsLength(g, q);
    if p != [] {
      var x, y := g.bytes(p[0]), g.bytes(q[0]);
      assert BytesInjective(g, p[0], q[0]) && BytesInjective(g, q[0], p[0]);
      assert PointBytes(g, p)[1..] == PointBytes(g, p[1..]) && PointBytes(g, q)[1..] == PointBytes(g, q[1..]);
      FirstParts(x, Concat(PointBytes(g, p[1..])), y, Concat(PointBytes(g, q[1..])));
      PointsDecodable(g, p[1..], q[1..]);
    }
  }

  lemma {:induction false} PointsLength<P(!new)>(g: Group<P>, p: seq<P>)
    requires IsGroup(g)
    ensures |Concat(PointBytes(g, p))| == 32 * |p|
  {
    if p != [] {
      assert BytesInjective(g, p[0], p[0]);
      assert PointBytes(g, p)[1..] == PointBytes(g, p[1..]);
      PointsLength(g, p[1..]);
    }
  }

  lemma FirstParts(a: Bytes, x: Bytes, b: Bytes, y: Bytes)
    requires a + x == b + y && |a| == |b|
    ensures a == b && x == y
  {
    assert a == (a + x)[..|a|] && b == (b + y)[..|b|];
    assert x == (a + x)[|a|..] && y == (b + y)[|b|..];
  }

  lemma MiddleParts(c: Bytes, a: Bytes, x: Bytes, b: Bytes, y: Bytes)
    requires c + a + x + [0] == c + b + y + [0] && |a| == |b|
    ensures a == b && x == y
  {
    var s, t := c + a + x + [0], c + b + y + [0];
    assert a == s[|c|..|c| + |a|] && b == t[|c|..|c| + |b|];
    assert x == s[|c| + |a|..|s| - 1] && y == t[|c| + |b|..|t| - 1];
  }

  lemma RangeWidens(eqs: seq<Bytes>, ns: nat, np: nat, ns': nat, np': nat)
    requires AllInRange(eqs, ns, np) && ns <= ns' && np <= np'
    ensures AllInRange(eqs, ns', np')
  {
    forall i | 0 <= i < |eqs|
      ensures InRange(eqs[i], ns', np')
    {
      assert InRange(eqs[i], ns, np);
    }
  }

  /** What is hashed for the opening, as one string. */
  function Transcript<P>(g: Group<P>, description: Bytes, points: seq<P>): Bytes {
    description + Concat(PointBytes(g, points)) + [0]
  }

  lemma OpeningOfTranscript<P>(g: Group<P>, h: Hmac, description: Bytes, points: seq<P>)
    ensures Opening(g, h, description, points) ==
            ShoState(h(h(Zeros(32), LABEL + [0]), Transcript(g, description, points)), None)
  {
    AbsorbedWhole(Absorbed(Created(h, LABEL), description), PointBytes(g, points));
  }

  /** The opening hashes one string, which stands for one system of equations and one list of
      points. */
  lemma OpeningBinds<P(!new)>(g: Group<P>, h: Hmac, a: seq<Bytes>, p: seq<P>, b: seq<Bytes>, q: seq<P>, na: nat, nb: nat)
    requires IsGroup(g) && |a| <= 255 && |b| <= 255 && AllInRange(a, na, |p|) && AllInRange(b, nb, |q|)
    ensures Opening(g, h, Description(a), p).cv == h(h(Zeros(32), LABEL + [0]), Transcript(g, Description(a), p))
    ensures Transcript(g, Description(a), p) == Transcript(g, Description(b), q) <==> a == b && p == q
  {
    OpeningOfTranscript(g, h, Description(a), p);
    if Transcript(g, Description(a), p) == Transcript(g, Description(b), q) {
      var x, y := Concat(PointBytes(g, p)), Concat(PointBytes(g, q));
      var ns, np := if na < nb then nb else na, if |p| < |q| then |q| else |p|;
      assert Description(a) + x == Transcript(g, Description(a), p)[..|Description(a) + x|];
      assert Description(b) + y == Transcript(g, Description(b), q)[..|Description(b) + y|];
      RangeWidens(a, na, |p|, ns, np);
      RangeWidens(b, nb, |q|, ns, np);
      DescriptionDecodable(a, b, x, y, ns, np);
      PointsDecodable(g, p, q);
    }
  }

  /** The challenge for a sequence of commitments. */
  function Challenge<P>(g: Group<P>, h: Hmac, opening: ShoState, commitment: seq<P>, message: Bytes): Scalar
    requires IsHmac(h)
  {
    FromBytes(Output(h, Ratcheted(h, Absorbed(AbsorbedAll(opening, PointBytes(g, commitment)), message)).cv, 64))
  }

  function NonceState(h: Hmac, opening: ShoState, random: Bytes, g1: seq<Scalar>, message: Bytes): ShoState {
    Ratcheted(h, Absorbed(Ratcheted(h, AbsorbedAll(Absorbed(opening, random), ScalarBytes(g1))), message))
  }

  /** What is hashed for the challenge, as one string. */
  function ChallengeInput<P>(g: Group<P>, opening: ShoState, commitment: seq<P>, message: Bytes): Bytes {
    Collected(opening) + Concat(PointBytes(g, commitment)) + message + [0]
  }

  /** The challenge is read under the HMAC of one string, and of as many commitments each string
      stands for one list of them and one message. */
  lemma ChallengeBinds<P(!new)>(g: Group<P>, h: Hmac, opening: ShoState, a: seq<P>, x: Bytes, b: seq<P>, y: Bytes)
    requires IsGroup(g) && IsHmac(h) && |a| == |b|
    ensures var key := h(opening.cv, ChallengeInput(g, opening, a, x));
      Challenge(g, h, opening, a, x) ==
      LittleEndian(h(key, [0, 0, 0, 0, 0, 0, 0, 0, 1]) + h(key, [0, 0, 0, 0, 0, 0, 0, 1, 1])) % ELL
    ensures ChallengeInput(g, opening, a, x) == ChallengeInput(g, opening, b, y) <==> a == b && x == y
  {
    AbsorbedConcat(opening, PointBytes(g, a), x);
    Drawn(h, Ratcheted(h, Absorbed(AbsorbedAll(opening, PointBytes(g, a)), x)));
    if ChallengeInput(g, opening, a, x) == ChallengeInput(g, opening, b, y) {
      var c, p, q := Collected(opening), Concat(PointBytes(g, a)), Concat(PointBytes(g, b));
      PointsLength(g, a);
      PointsLength(g, b);
      MiddleParts(c, p, x, q, y);
      PointsDecodable(g, a, b);
    }
  }

  /** Consecutive 64-byte slices as scalars. */
  function Cut(data: Bytes, n: nat): (s: seq<Scalar>)
    requires |data| >= 64 * n
    ensures |s| == n
  {
    if n == 0 then [] else Cut(data, n - 1) + [FromBytes(data[64 * (n - 1)..64 * n])]
  }

  function Nonces(h: Hmac, opening: ShoState, random: Bytes, g1: seq<Scalar>, message: Bytes): (n: seq<Scalar>)
    requires IsHmac(h)
    ensures |n| == |g1|
  {
    Cut(Output(h, NonceState(h, opening, random, g1, message).cv, 64 * |g1|), |g1|)
  }

  lemma {:induction false} CutAt(data: Bytes, n: nat, i: nat)
    requires |data| >= 64 * n && i < n
    ensures Cut(data, n)[i] == LittleEndian(data[64 * i..64 * i + 64]) % ELL
  {
    if i < n - 1 { CutAt(data, n - 1, i); }
  }

  /** What is hashed for the nonces: the random string and the scalars, and under the key that
      this gives the message. */
  function NonceInput(opening: ShoState, random: Bytes, g1: seq<Scalar>): Bytes {
    Collected(opening) + random + Concat(ScalarBytes(g1)) + [0]
  }

  /** The nonces are read off, 64 bytes each, under the HMAC of the message and that of the random
      string and the scalars. */
  lemma NonceAt(h: Hmac, opening: ShoState, random: Bytes, g1: seq<Scalar>, message: Bytes, i: nat)
    requires IsHmac(h) && i < |g1|
    ensures var key := h(h(opening.cv, NonceInput(opening, random, g1)), message + [0]);
      Nonces(h, opening, random, g1, message)[i] ==
      LittleEndian(h(key, Extend(Asn(2 * i), 8) + [1]) + h(key, Extend(Asn(2 * i + 1), 8) + [1])) % ELL
  {
    var key := h(h(opening.cv, NonceInput(opening, random, g1)), message + [0]);
    NonceKey(h, opening, random, g1, message);
    NonceSlice(h, key, |g1|, i);
  }

  lemma NonceSlice(h: Hmac, key: Bytes, n: nat, i: nat)
    requires IsHmac(h) && i < n
    ensures Cut(Output(h, key, 64 * n), n)[i] ==
            LittleEndian(h(key, Extend(Asn(2 * i), 8) + [1]) + h(key, Extend(Asn(2 * i + 1), 8) + [1])) % ELL
  {
    var data, o := Output(h, key, 64 * n), 64 * i;
    CutAt(data, n, i);
    OutputAt(h, key, 64 * n, 2 * i);
    OutputAt(h, key, 64 * n, 2 * i + 1);
    assert data[o..o + 64] == data[o..o + 32] + data[o + 32..o + 64];
  }

  lemma NonceKey(h: Hmac, opening: ShoState, random: Bytes, g1: seq<Scalar>, message: Bytes)
    ensures NonceState(h, opening, random, g1, message).cv == h(h(opening.cv, NonceInput(opening, random, g1)), message + [0])
  {
    AbsorbedWhole(Absorbed(opening, random), ScalarBytes(g1));
    assert Absorbed(opening, random).input.value == Collected(opening) + random by {
      assert [] + random == random;
    }
  }

  /** For random strings of one length and as many scalars, what is hashed for the nonces stands
      for one random string and one list of scalars. */
  lemma NoncesBind(opening: ShoState, r: Bytes, a: seq<Scalar>, s: Bytes, b: seq<Scalar>)
    requires |r| == |s| && |a| == |b|
    ensures NonceInput(opening, r, a) == NonceInput(opening, s, b) <==> r == s && a == b
  {
    if NonceInput(opening, r, a) == NonceInput(opening, s, b) {
      var c, p, q := Collected(opening), Concat(ScalarBytes(a)), Concat(ScalarBytes(b));
      MiddleParts(c, r, p, s, q);
      ScalarsDecodable(a, b);
    }
  }

  lemma {:induction false} ScalarsDecodable(a: seq<Scalar>, b: seq<Scalar>)
    requires |a| == |b| && Concat(ScalarBytes(a)) == Concat(ScalarBytes(b))
    ensures a == b
  {
    if a != [] {
      BytesRoundTrip(a[0]);
      BytesRoundTrip(b[0]);
      var x, y := Concat(ScalarBytes(a[1..])), Concat(ScalarBytes(b[1..]));
      assert ScalarBytes(a)[1..] == ScalarBytes(a[1..]) && ScalarBytes(b)[1..] == ScalarBytes(b[1..]);
      assert Concat(ScalarBytes(a)) == ToBytes(a[0]) + x && Concat(ScalarBytes(b)) == ToBytes(b[0]) + y;
      FirstParts(ToBytes(a[0]), x, ToBytes(b[0]), y);
      ScalarsDecodable(a[1..], b[1..]);
    }
  }

  function Proved<P>(g: Group<P>, h: Hmac, description: Bytes, eqs: seq<Bytes>, points: seq<P>,
      g1: seq<Scalar>, message: Bytes, random: Bytes): (p: ProofValue)
    requires IsHmac(h) && AllInRange(eqs, |g1|, |points|)
    ensures |p.response| == |g1|
  {
    var opening := Opening(g, h, description, points);
    var nonce := Nonces(h, opening, random, g1, message);
    var challenge := Challenge(g, h, opening, Image(g, eqs, points, nonce), message);
    ProofValue(challenge, Responses(g1, challenge, nonce))
  }

  predicate Accepted<P>(g: Group<P>, h: Hmac, description: Bytes, eqs: seq<Bytes>, points: seq<P>,
      proof: ProofValue, message: Bytes)
    requires IsHmac(h) && AllInRange(eqs, |proof.response|, |points|)
  {
    proof.challenge == Challenge(g, h, Opening(g, h, description, points), Recomputed(g, eqs, points, proof), message)
  }

  /** What the verifier compares: the challenge it is given, and the one that it reads under HMAC
      of the commitments it has recomputed and the message, under HMAC of the statement and its
      points. */
  lemma AcceptedInHmac<P(!new)>(g: Group<P>, h: Hmac, description: Bytes, eqs: seq<Bytes>, points: seq<P>,
      proof: ProofValue, message: Bytes)
    requires IsGroup(g) && IsHmac(h) && AllInRange(eqs, |proof.response|, |points|)
    ensures var opening := h(h(Zeros(32), LABEL + [0]), Transcript(g, description, points));
      var key := h(opening, Concat(PointBytes(g, Recomputed(g, eqs, points, proof))) + message + [0]);
      Accepted(g, h, description, eqs, points, proof, message) <==>
      proof.challenge == LittleEndian(h(key, [0, 0, 0, 0, 0, 0, 0, 0, 1]) + h(key, [0, 0, 0, 0, 0, 0, 0, 1, 1])) % ELL
  {
    var opening, commitment := Opening(g, h, description, points), Recomputed(g, eqs, points, proof);
    OpeningOfTranscript(g, h, description, points);
    ChallengeBinds(g, h, opening, commitment, message, commitment, message);
    assert [] + Concat(PointBytes(g, commitment)) == Concat(PointBytes(g, commitment));
  }

  /** The nonces of a proof that is made are drawn under HMAC of the message, under that of the
      random string and the scalars, under that of the statement and its points. */
  lemma ProvedNonces<P(!new)>(g: Group<P>, h: Hmac, description: Bytes, eqs: seq<Bytes>, points: seq<P>,
      g1: seq<Scalar>, message: Bytes, random: Bytes, i: nat)
    requires IsGroup(g) && IsHmac(h) && AllInRange(eqs, |g1|, |points|) && i < |g1|
    ensures var opening := h(h(Zeros(32), LABEL + [0]), Transcript(g, description, points));
      var key := h(h(opening, random + Concat(ScalarBytes(g1)) + [0]), message + [0]);
      var proof := Proved(g, h, description, eqs, points, g1, message, random);
      NoncesFor(g1, proof.challenge, proof.response)[i] ==
      LittleEndian(h(key, Extend(Asn(2 * i), 8) + [1]) + h(key, Extend(Asn(2 * i + 1), 8) + [1])) % ELL
  {
    var opening := Opening(g, h, description, points);
    var proof := Proved(g, h, description, eqs, points, g1, message, random);
    OpeningOfTranscript(g, h, description, points);
    NonceAt(h, opening, random, g1, message, i);
    NoncesAreResponses(g1, proof.challenge, Nonces(h, opening, random, g1, message), proof.response);
    assert [] + random == random;
  }

  /** Whoever knows scalars that satisfy every equation convinces the verifier. */
  lemma Complete<P(!new)>(g: Group<P>, h: Hmac, description: Bytes, eqs: seq<Bytes>, points: seq<P>,
      g1: seq<Scalar>, message: Bytes, random: Bytes)
    requires IsGroup(g) && IsHmac(h) && AllInRange(eqs, |g1|, |points|)
    requires Satisfied(g, eqs, points, g1)
    ensures Accepted(g, h, description, eqs, points,
                     Proved(g, h, description, eqs, points, g1, message, random), message)
  {
    var opening := Opening(g, h, description, points);
    var nonce := Nonces(h, opening, random, g1, message);
    var challenge := Challenge(g, h, opening, Image(g, eqs, points, nonce), message);
    RecomputedCommitments(g, eqs, points, g1, challenge, nonce);
  }

  // ---------------------------------------------------------------- special soundness

  /** The witness extracted from two proofs, given an inverse of the challenge difference. */
  function Extracted(a: ProofValue, b: ProofValue, inverse: Scalar): (w: seq<Scalar>)
    requires |a.response| == |b.response|
    ensures |w| == |a.response|
  {
    seq(|a.response|, i requires 0 <= i < |a.response| => Times(Minus(a.response[i], b.response[i]), inverse))
  }

  lemma {:induction false} SumOfDifference<P(!new)>(g: Group<P>, eq: Bytes, n: nat, points: seq<P>,
      a: seq<Scalar>, b: seq<Scalar>, inverse: Scalar)
    requires IsGroup(g) && |a| == |b| && InRange(eq, |a|, |points|) && 1 <= n <= eq[1]
    ensures Sum(g, eq, n, points, Extracted(ProofValue(0, a), ProofValue(0, b), inverse))
         == g.mult(g.sub(Sum(g, eq, n, points, a), Sum(g, eq, n, points, b)), inverse)
  {
    var p, k := points[eq[2 * (n - 1) + 3]], eq[2 * (n - 1) + 2];
    MultMinus(g, p, a[k], b[k]);
    assert MultTimes(g, p, Minus(a[k], b[k]), inverse);
    if n > 1 {
      SumOfDifference(g, eq, n - 1, points, a, b, inverse);
      var x, y := Sum(g, eq, n - 1, points, a), Sum(g, eq, n - 1, points, b);
      var u, v := g.mult(p, a[k]), g.mult(p, b[k]);
      assert MultAdd(g, g.sub(x, y), g.sub(u, v), inverse);
      DifferenceOfSums(g, x, y, u, v);
    }
  }

  lemma DifferenceOfSums<P(!new)>(g: Group<P>, x: P, y: P, u: P, v: P)
    requires IsGroup(g)
    ensures g.add(g.sub(x, y), g.sub(u, v)) == g.sub(g.add(x, u), g.add(y, v))
  {
    Interchange(g, g.sub(x, y), y, g.sub(u, v), v);
    assert SubUndoesAdd(g, x, y);
    assert SubUndoesAdd(g, u, v);
    assert SubUndoesAdd(g, g.add(g.sub(x, y), g.sub(u, v)), g.add(y, v));
  }

  /** z - l*c == z' - l*c' implies z - z' == l*(c - c') */
  lemma SameCommitment<P(!new)>(g: Group<P>, z: P, z': P, l: P, c: Scalar, c': Scalar)
    requires IsGroup(g) && g.sub(z, g.mult(l, c)) == g.sub(z', g.mult(l, c'))
    ensures g.sub(z, z') == g.mult(l, Minus(c, c'))
  {
    MultMinus(g, l, c, c');
    var k, t, t' := g.sub(z, g.mult(l, c)), g.mult(l, c), g.mult(l, c');
    assert SubUndoesAdd(g, z, t);
    assert SubUndoesAdd(g, z', t');
    assert SubUndoesAdd(g, t, t');
    assert AddAssociates(g, k, t', g.sub(t, t'));
    assert AddCommutes(g, t', g.sub(t, t'));
    assert AddCommutes(g, z', g.sub(t, t'));
    assert SubUndoesAdd(g, g.sub(t, t'), z');
  }

  /** Two proofs with different challenges that reproduce the same commitments give away
      scalars that satisfy every equation. */
  lemma SpeciallySound<P(!new)>(g: Group<P>, eqs: seq<Bytes>, points: seq<P>,
      a: ProofValue, b: ProofValue, inverse: Scalar)
    requires IsGroup(g) && |a.response| == |b.response| && AllInRange(eqs, |a.response|, |points|)
    requires Times(Minus(a.challenge, b.challenge), inverse) == 1
    requires Recomputed(g, eqs, points, a) == Recomputed(g, eqs, points, b)
    ensures Satisfied(g, eqs, points, Extracted(a, b, inverse))
  {
    var w := Extracted(a, b, inverse);
    forall i | 0 <= i < |eqs|
      ensures Image(g, eqs, points, w)[i] == Targets(eqs, |w|, points)[i]
    {
      var eq := eqs[i];
      var z, z', l := Sum(g, eq, eq[1], points, a.response), Sum(g, eq, eq[1], points, b.response), points[eq[0]];
      assert Recomputed(g, eqs, points, a)[i] == Recomputed(g, eqs, points, b)[i];
      SameCommitment(g, z, z', l, a.challenge, b.challenge);
      assert w == Extracted(ProofValue(0, a.response), ProofValue(0, b.response), inverse);
      SumOfDifference(g, eq, eq[1], points, a.response, b.response, inverse);
      assert MultTimes(g, l, Minus(a.challenge, b.challenge), inverse);
      assert MultOne(g, l);
    }
  }
}
