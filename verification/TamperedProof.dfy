/** A statement, an HMAC and proofs that differ in one response: of all of them the verifier
    accepts one. */
module TamperedProofs {
  import opened ByteStrings
  import opened Wrappers
  import opened Scalars
  import opened Ristretto
  import opened StatefulHash
  import opened Statements
  import opened Proofs
  import opened SigmaProtocol
  import opened StatementProofs

  /** Z is a multiple of G. */
  const MULTIPLE := Call("Z", ["s", "G"])

  const ONE_AND_ZEROS: Bytes := [1] + Zeros(31)

  /** Input that ends in 0 gives zeros if it starts with 32 of them, and 1 and zeros otherwise; of
      the output, the first block is the key, and the others are zeros. */
  function Toy(key: Bytes, data: Bytes): Bytes {
    if data != [] && data[|data| - 1] == 0 then
      if |data| >= 32 && data[..32] == Zeros(32) then Zeros(32) else ONE_AND_ZEROS
    else if data == [0, 0, 0, 0, 0, 0, 0, 0, 1] && |key| == 32 then key
    else Zeros(32)
  }

  function ToyHmac(): Hmac {
    (key, data) => Toy(key, data)
  }

  lemma ToyIsHmac()
    ensures IsHmac(ToyHmac())
  {}

  lemma {:induction false} ZerosValue(n: nat)
    ensures LittleEndian(Zeros(n)) == 0
  {
    if n > 0 {
      assert Zeros(n)[1..] == Zeros(n - 1);
      ZerosValue(n - 1);
    }
  }

  lemma OneValue()
    ensures LittleEndian(ONE_AND_ZEROS + Zeros(32)) == 1
  {
    var s := ONE_AND_ZEROS + Zeros(32);
    assert s[1..] == Zeros(63);
    ZerosValue(63);
  }

  /** The statement: two points, one scalar, one equation of four bytes. */
  lemma MultipleBuilt()
    ensures var st := AfterCalls([MULTIPLE]);
      st.tables == Tables(["s"], ["G", "Z"]) && st.equations == [[1, 1, 0, 0]]
  {
    var eq := Equation("Z", [Term("s", "G")]);
    var t0, t1, t2 := INITIAL.tables, Tables([], ["G", "Z"]), Tables(["s"], ["G", "Z"]);
    assert [MULTIPLE][..0] == [] && Pairs(MULTIPLE.rhs) == eq.rhs;
    assert EnterPoint(t0, "Z") == Entered(t1, None);
    assert EnterTerms(t1, eq.rhs, 0) == Entered(t1, None);
    assert EnterTerms(t1, eq.rhs, 1) == Entered(t2, None);
    assert EnterEquation(t0, eq) == Entered(t2, None);
    assert ["G", "Z"][1..] == ["Z"];
    assert CompiledTerms(t2, eq.rhs, 0) == [];
    assert CompiledTerms(t2, eq.rhs, 1) == [0, 0];
    assert Compiled(t2, eq) == [1, 1, 0, 0];
    assert AfterCalls([]) == INITIAL;
  }

  /** The commitment that is recomputed for challenge 0 and response r, when Z is zero, is r. */
  lemma Commitment(r: Scalar)
    ensures AllInRange([[1, 1, 0, 0]], 1, 2)
    ensures Recomputed(ScalarGroup(), [[1, 1, 0, 0]], [1, 0], ProofValue(0, [r])) == [r]
  {
    var eqs: seq<Bytes> := [[1, 1, 0, 0]];
    assert eqs[0] == [1, 1, 0, 0];
    var g, proof := ScalarGroup(), ProofValue(0, [r]);
    assert Times(1, r) == r && Times(0, 0) == 0;
    assert Sum(g, eqs[0], 1, [1, 0], [r]) == r;
    assert Minus(r, 0) == r;
  }

  lemma ToyInput(key: Bytes, x: Bytes)
    requires |x| == 32
    ensures Toy(key, x + [0]) == if x == Zeros(32) then Zeros(32) else ONE_AND_ZEROS
  {
    assert (x + [0])[..32] == x && (x + [0])[32] == 0;
  }

  lemma InputOfOne<P>(g: Group<P>, opening: ShoState, p: P)
    requires opening.input == None
    ensures ChallengeInput(g, opening, [p], []) == g.bytes(p) + [0]
  {
    assert PointBytes(g, [p]) == [g.bytes(p)];
    assert Concat([g.bytes(p)]) == g.bytes(p);
    assert [] + g.bytes(p) + [] == g.bytes(p);
  }

  lemma ZeroOnly(r: Scalar)
    ensures |ToBytes(r)| == 32
    ensures ToBytes(r) == Zeros(32) <==> r == 0
  {
    BytesRoundTrip(r);
    ZeroBytes();
    BytesRoundTrip(0);
  }

  lemma ToyOutput(key: Bytes)
    requires |key| == 32
    ensures Toy(key, [0, 0, 0, 0, 0, 0, 0, 0, 1]) == key
    ensures Toy(key, [0, 0, 0, 0, 0, 0, 0, 1, 1]) == Zeros(32)
  {
    var first, second: Bytes := [0, 0, 0, 0, 0, 0, 0, 0, 1], [0, 0, 0, 0, 0, 0, 0, 1, 1];
    assert first[7] != second[7] && first[8] == second[8] == 1;
  }

  /** Under this HMAC the challenge for commitment r is 0 exactly if r is. */
  lemma ToyChallenge(opening: ShoState, r: Scalar)
    requires opening.input == None
    ensures IsHmac(ToyHmac())
    ensures Challenge(ScalarGroup(), ToyHmac(), opening, [r], []) == if r == 0 then 0 else 1
  {
    ScalarGroupIsGroup();
    ToyIsHmac();
    ChallengeBinds(ScalarGroup(), ToyHmac(), opening, [r], [], [r], []);
    var key := if r == 0 then Zeros(32) else ONE_AND_ZEROS;
    assert ToyHmac()(opening.cv, ChallengeInput(ScalarGroup(), opening, [r], [])) == key by {
      InputOfOne(ScalarGroup(), opening, r);
      ZeroOnly(r);
      ToyInput(opening.cv, ToBytes(r));
    }
    ToyValue(r == 0);
  }

  lemma ToyValue(zero: bool)
    ensures var h, key := ToyHmac(), if zero then Zeros(32) else ONE_AND_ZEROS;
      LittleEndian(h(key, [0, 0, 0, 0, 0, 0, 0, 0, 1]) + h(key, [0, 0, 0, 0, 0, 0, 0, 1, 1])) % ELL ==
      if zero then 0 else 1
  {
    ToyOutput(if zero then Zeros(32) else ONE_AND_ZEROS);
    assert Zeros(32) + Zeros(32) == Zeros(64);
    ZerosValue(64);
    OneValue();
  }

  lemma ZeroBytes()
    ensures ToBytes(0) == Zeros(32)
  {
    ReverseZeros(32);
    assert Extend(Asn(0), 32) == Zeros(32);
  }

  lemma {:induction false} ReverseZeros(n: nat)
    ensures Reverse(Zeros(n)) == Zeros(n)
  {
    if n > 0 {
      assert Zeros(n)[1..] == Zeros(n - 1);
      ReverseZeros(n - 1);
      assert Zeros(n - 1) + [0] == Zeros(n);
    }
  }

  lemma MultiplePoints(st: StatementState)
    requires st.tables.points == ["G", "Z"]
    ensures PointArguments(ScalarGroup(), st, map["Z" := 0]) == Ok([1, 0])
  {
    var args: map<string, Scalar> := map["Z" := 0];
    var all := args["G" := ScalarGroup().base];
    assert all.Keys == {"Z", "G"};
    assert |all| == |all.Keys| == 2;
    var points := PointArguments(ScalarGroup(), st, args);
    assert points.Ok? && points.value[0] == 1 && points.value[1] == 0;
    assert points.value == [1, 0];
  }

  /** The proof with challenge 0 and response r is accepted exactly if r is 0. */
  lemma OneResponseAccepted(r: Scalar)
    ensures IsGroup(ScalarGroup()) && IsHmac(ToyHmac())
    ensures Verdict(ScalarGroup(), ToyHmac(), AfterCalls([MULTIPLE]), Printed(ProofValue(0, [r])), map["Z" := 0], []) ==
            Ok(r == 0)
  {
    ScalarGroupIsGroup();
    ToyIsHmac();
    var st := AfterCalls([MULTIPLE]);
    MultipleBuilt();
    MultiplePoints(st);
    StateInRange(st);
    VerdictOnPrinted(ScalarGroup(), ToyHmac(), st, ProofValue(0, [r]), map["Z" := 0], []);
    Commitment(r);
    ToyChallenge(Opening(ScalarGroup(), ToyHmac(), Description(st.equations), [1, 0]), r);
  }
}
