/** A request for a blinded profile key credential: two attributes encrypted under the
    client's public key, with a proof that they are the ones committed to. */
module ProfileKeyRequests {
  import opened ByteStrings
  import opened Wrappers
  import opened Scalars
  import opened Ristretto
  import opened StatefulHash
  import opened Statements
  import opened Proofs
  import opened SigmaProtocol
  import opened StatementProofs
  import opened StatementObjects
  import opened Issuance

  datatype Commitment<P> = Commitment(J1: P, J2: P, J3: P)
  datatype CommitmentParams<P> = CommitmentParams(G_j1: P, G_j2: P, G_j3: P)
  datatype Request<P> = Request(publicKey: P, D1: P, D2: P, E1: P, E2: P)

  const Y_CALL := Call("Y", ["y", "G"])
  const D1_CALL := Call("D1", ["r1", "G"])
  const E1_CALL := Call("E1", ["r2", "G"])
  const J3_CALL := Call("J3", ["j3", "G_j3"])
  const D2_CALL := Call("D2-J1", ["r1", "Y", "j3", "-G_j1"])
  const E2_CALL := Call("E2-J2", ["r2", "Y", "j3", "-G_j2"])
  const REQUEST_CALLS := [Y_CALL, D1_CALL, E1_CALL, J3_CALL, D2_CALL, E2_CALL]

  function RequestPoints<P>(g: Group<P>, gj: CommitmentParams<P>, c: Commitment<P>, r: Request<P>): map<string, P> {
    map["Y" := r.publicKey, "D1" := r.D1, "E1" := r.E1, "J3" := c.J3, "G_j3" := gj.G_j3,
        "D2-J1" := g.sub(r.D2, c.J1), "-G_j1" := g.neg(gj.G_j1),
        "E2-J2" := g.sub(r.E2, c.J2), "-G_j2" := g.neg(gj.G_j2)]
  }

  function RequestScalars(y: Scalar, r1: Scalar, r2: Scalar, j3: Scalar): map<string, Scalar> {
    map["y" := y, "r1" := r1, "r2" := r2, "j3" := j3]
  }

  lemma RequestCallNames()
    ensures WellFormed(Y_CALL) && Evens(Y_CALL.rhs) == ["y"] && Odds(Y_CALL.rhs) == ["G"]
    ensures WellFormed(D1_CALL) && Evens(D1_CALL.rhs) == ["r1"] && Odds(D1_CALL.rhs) == ["G"]
    ensures WellFormed(E1_CALL) && Evens(E1_CALL.rhs) == ["r2"] && Odds(E1_CALL.rhs) == ["G"]
    ensures WellFormed(J3_CALL) && Evens(J3_CALL.rhs) == ["j3"] && Odds(J3_CALL.rhs) == ["G_j3"]
    ensures WellFormed(D2_CALL) && Evens(D2_CALL.rhs) == ["r1", "j3"] && Odds(D2_CALL.rhs) == ["Y", "-G_j1"]
    ensures WellFormed(E2_CALL) && Evens(E2_CALL.rhs) == ["r2", "j3"] && Odds(E2_CALL.rhs) == ["Y", "-G_j2"]
  {}

  const REQUEST_SCALARS := ["y", "r1", "r2", "j3"]

  /** The scalar and point names mentioned by the six calls. */
  function MentionedScalars(): seq<string> {
    Evens(Y_CALL.rhs) + Evens(D1_CALL.rhs) + Evens(E1_CALL.rhs) + Evens(J3_CALL.rhs) + Evens(D2_CALL.rhs) + Evens(E2_CALL.rhs)
  }

  function MentionedPoints(): seq<string> {
    ["G"] + [Y_CALL.lhs] + Odds(Y_CALL.rhs) + [D1_CALL.lhs] + Odds(D1_CALL.rhs) + [E1_CALL.lhs] + Odds(E1_CALL.rhs)
    + [J3_CALL.lhs] + Odds(J3_CALL.rhs) + [D2_CALL.lhs] + Odds(D2_CALL.rhs) + [E2_CALL.lhs] + Odds(E2_CALL.rhs)
  }

  lemma RequestScalarNames(y: Scalar, r1: Scalar, r2: Scalar, j3: Scalar)
    ensures RequestScalars(y, r1, r2, j3).Keys == Names(MentionedScalars()) && |RequestScalars(y, r1, r2, j3).Keys| == 4
    ensures |MentionedScalars()| == 8
  {
    RequestCallNames();
    assert RequestScalars(y, r1, r2, j3).Keys == Names(REQUEST_SCALARS);
    assert Distinct(REQUEST_SCALARS);
    DistinctSize(REQUEST_SCALARS);
  }

  lemma RequestPointNames<P>(g: Group<P>, gj: CommitmentParams<P>, c: Commitment<P>, r: Request<P>)
    ensures RequestPoints(g, gj, c, r)["G" := g.base].Keys == Names(MentionedPoints()) && |MentionedPoints()| == 15
  {
    RequestCallNames();
  }

  function RequestEquations(): seq<Equation> {
    RequestCallNames();
    [EquationOf(Y_CALL), EquationOf(D1_CALL), EquationOf(E1_CALL)]
    + [EquationOf(J3_CALL), EquationOf(D2_CALL), EquationOf(E2_CALL)]
  }

  lemma RequestLists()
    ensures AllWellFormed(REQUEST_CALLS)
    ensures ScalarList(REQUEST_CALLS) == MentionedScalars() && PointList(REQUEST_CALLS) == MentionedPoints()
    ensures Equations(REQUEST_CALLS) == RequestEquations()
  {
    RequestCallNames();
    ListsOfThree(Y_CALL, D1_CALL, E1_CALL);
    ListsOfSix(Y_CALL, D1_CALL, E1_CALL, J3_CALL, D2_CALL, E2_CALL);
  }

  lemma RequestArgumentsMatch<P>(g: Group<P>, gj: CommitmentParams<P>, c: Commitment<P>, r: Request<P>,
      y: Scalar, r1: Scalar, r2: Scalar, j3: Scalar)
    ensures AllWellFormed(REQUEST_CALLS) && AfterCalls(REQUEST_CALLS).system == Equations(REQUEST_CALLS)
    ensures Match(AfterCalls(REQUEST_CALLS).tables.scalars, RequestScalars(y, r1, r2, j3))
    ensures Match(AfterCalls(REQUEST_CALLS).tables.points, RequestPoints(g, gj, c, r)["G" := g.base])
    ensures |AfterCalls(REQUEST_CALLS).tables.scalars| == 4
  {
    RequestLists();
    RequestScalarNames(y, r1, r2, j3);
    RequestPointNames(g, gj, c, r);
    ShortListsBuild(REQUEST_CALLS);
    DistinctSize(AfterCalls(REQUEST_CALLS).tables.scalars);
  }

  // ---------------------------------------------------------------- what the request says

  /** The six equations, as the statement has them. */
  ghost predicate RequestStatement<P>(g: Group<P>, gj: CommitmentParams<P>, c: Commitment<P>, r: Request<P>,
      y: Scalar, r1: Scalar, r2: Scalar, j3: Scalar) {
    && r.publicKey == g.mult(g.base, y)
    && r.D1 == g.mult(g.base, r1)
    && r.E1 == g.mult(g.base, r2)
    && c.J3 == g.mult(gj.G_j3, j3)
    && g.sub(r.D2, c.J1) == g.add(g.mult(r.publicKey, r1), g.mult(g.neg(gj.G_j1), j3))
    && g.sub(r.E2, c.J2) == g.add(g.mult(r.publicKey, r2), g.mult(g.neg(gj.G_j2), j3))
  }

  /** (D1, D2) and (E1, E2) encrypt M3 and M4 under the public key of y. */
  ghost predicate Encrypts<P>(g: Group<P>, r: Request<P>, y: Scalar, r1: Scalar, r2: Scalar, M3: P, M4: P) {
    && r.publicKey == g.mult(g.base, y)
    && r.D1 == g.mult(g.base, r1) && r.D2 == g.add(g.mult(r.publicKey, r1), M3)
    && r.E1 == g.mult(g.base, r2) && r.E2 == g.add(g.mult(r.publicKey, r2), M4)
  }

  /** The commitment opens to M3 and M4. */
  ghost predicate Opens<P>(g: Group<P>, gj: CommitmentParams<P>, c: Commitment<P>, j3: Scalar, M3: P, M4: P) {
    c.J1 == g.add(g.mult(gj.G_j1, j3), M3) && c.J2 == g.add(g.mult(gj.G_j2, j3), M4) && c.J3 == g.mult(gj.G_j3, j3)
  }

  lemma OneTerm<P>(g: Group<P>, call: Call, sv: map<string, Scalar>, pv: map<string, P>)
    requires |call.rhs| == 2
    requires call.lhs in pv && call.rhs[0] in sv && call.rhs[1] in pv
    ensures Holds(g, EquationOf(call), sv, pv) <==> pv[call.lhs] == g.mult(pv[call.rhs[1]], sv[call.rhs[0]])
  {}

  lemma TwoTerms<P>(g: Group<P>, call: Call, sv: map<string, Scalar>, pv: map<string, P>)
    requires |call.rhs| == 4
    requires call.lhs in pv && call.rhs[0] in sv && call.rhs[1] in pv && call.rhs[2] in sv && call.rhs[3] in pv
    ensures Holds(g, EquationOf(call), sv, pv) <==>
      pv[call.lhs] == g.add(g.mult(pv[call.rhs[1]], sv[call.rhs[0]]), g.mult(pv[call.rhs[3]], sv[call.rhs[2]]))
  {
    var terms := EquationOf(call).rhs;
    assert terms == [Term(call.rhs[0], call.rhs[1]), Term(call.rhs[2], call.rhs[3])];
    if Assigned(EquationOf(call), sv, pv) {
      assert NamedSum(g, terms, 1, sv, pv) == g.mult(pv[call.rhs[1]], sv[call.rhs[0]]);
    }
  }

  lemma AllHoldSix<P>(g: Group<P>, a: Equation, b: Equation, c: Equation, d: Equation, e: Equation, f: Equation,
      sv: map<string, Scalar>, pv: map<string, P>)
    ensures AllHold(g, [a, b, c] + [d, e, f], sv, pv)
       <==> (Holds(g, a, sv, pv) && Holds(g, b, sv, pv) && Holds(g, c, sv, pv)
             && Holds(g, d, sv, pv) && Holds(g, e, sv, pv) && Holds(g, f, sv, pv))
  {
    var all := [a, b, c] + [d, e, f];
    assert all[0] == a && all[1] == b && all[2] == c && all[3] == d && all[4] == e && all[5] == f;
  }

  /** The six calls under given values of their names. */
  lemma CallsHold<P>(g: Group<P>, sv: map<string, Scalar>, pv: map<string, P>)
    requires sv.Keys == {"y", "r1", "r2", "j3"}
    requires {"G", "Y", "D1", "E1", "J3", "G_j3", "D2-J1", "-G_j1", "E2-J2", "-G_j2"} <= pv.Keys
    ensures Holds(g, EquationOf(Y_CALL), sv, pv) <==> pv["Y"] == g.mult(pv["G"], sv["y"])
    ensures Holds(g, EquationOf(D1_CALL), sv, pv) <==> pv["D1"] == g.mult(pv["G"], sv["r1"])
    ensures Holds(g, EquationOf(E1_CALL), sv, pv) <==> pv["E1"] == g.mult(pv["G"], sv["r2"])
    ensures Holds(g, EquationOf(J3_CALL), sv, pv) <==> pv["J3"] == g.mult(pv["G_j3"], sv["j3"])
    ensures Holds(g, EquationOf(D2_CALL), sv, pv)
       <==> pv["D2-J1"] == g.add(g.mult(pv["Y"], sv["r1"]), g.mult(pv["-G_j1"], sv["j3"]))
    ensures Holds(g, EquationOf(E2_CALL), sv, pv)
       <==> pv["E2-J2"] == g.add(g.mult(pv["Y"], sv["r2"]), g.mult(pv["-G_j2"], sv["j3"]))
  {
    OneTerm(g, Y_CALL, sv, pv);
    OneTerm(g, D1_CALL, sv, pv);
    OneTerm(g, E1_CALL, sv, pv);
    OneTerm(g, J3_CALL, sv, pv);
    TwoTerms(g, D2_CALL, sv, pv);
    TwoTerms(g, E2_CALL, sv, pv);
  }

  lemma RequestEquationsHold<P>(g: Group<P>, sv: map<string, Scalar>, pv: map<string, P>)
    ensures AllHold(g, RequestEquations(), sv, pv)
       <==> (Holds(g, EquationOf(Y_CALL), sv, pv) && Holds(g, EquationOf(D1_CALL), sv, pv)
             && Holds(g, EquationOf(E1_CALL), sv, pv) && Holds(g, EquationOf(J3_CALL), sv, pv)
             && Holds(g, EquationOf(D2_CALL), sv, pv) && Holds(g, EquationOf(E2_CALL), sv, pv))
  {
    AllHoldSix(g, EquationOf(Y_CALL), EquationOf(D1_CALL), EquationOf(E1_CALL), EquationOf(J3_CALL),
               EquationOf(D2_CALL), EquationOf(E2_CALL), sv, pv);
  }

  /** The points of the request under their names. */
  lemma RequestPointValues<P>(g: Group<P>, gj: CommitmentParams<P>, c: Commitment<P>, r: Request<P>)
    ensures var pv := RequestPoints(g, gj, c, r)["G" := g.base];
      && {"G", "Y", "D1", "E1", "J3", "G_j3", "D2-J1", "-G_j1", "E2-J2", "-G_j2"} <= pv.Keys
      && pv["G"] == g.base && pv["Y"] == r.publicKey && pv["D1"] == r.D1 && pv["E1"] == r.E1
      && pv["J3"] == c.J3 && pv["G_j3"] == gj.G_j3
      && pv["D2-J1"] == g.sub(r.D2, c.J1) && pv["-G_j1"] == g.neg(gj.G_j1)
      && pv["E2-J2"] == g.sub(r.E2, c.J2) && pv["-G_j2"] == g.neg(gj.G_j2)
  {}

  lemma RequestHolds<P>(g: Group<P>, gj: CommitmentParams<P>, c: Commitment<P>, r: Request<P>,
      y: Scalar, r1: Scalar, r2: Scalar, j3: Scalar)
    ensures AllHold(g, RequestEquations(), RequestScalars(y, r1, r2, j3), RequestPoints(g, gj, c, r)["G" := g.base])
       <==> RequestStatement(g, gj, c, r, y, r1, r2, j3)
  {
    var sv, pv := RequestScalars(y, r1, r2, j3), RequestPoints(g, gj, c, r)["G" := g.base];
    RequestPointValues(g, gj, c, r);
    RequestEquationsHold(g, sv, pv);
    CallsHold(g, sv, pv);
  }

  /** d - (jj + m) == u + (-j) exactly when d == u + m */
  lemma Blinded<P(!new)>(g: Group<P>, d: P, u: P, m: P, p: P, a: Scalar)
    requires IsGroup(g)
    ensures g.sub(d, g.add(g.mult(p, a), m)) == g.add(u, g.mult(g.neg(p), a)) <==> d == g.add(u, m)
  {
    var j := g.mult(p, a);
    NegMult(g, u, p, a);
    var x := g.sub(u, j);
    assert SubUndoesAdd(g, u, j);
    assert AddAssociates(g, x, j, m);
    assert g.add(x, g.add(j, m)) == g.add(u, m);
    assert SubUndoesAdd(g, d, g.add(j, m));
    assert SubUndoesAdd(g, x, g.add(j, m));
  }

  /** For a commitment that opens to M3 and M4, the request statement says exactly that the
      ciphertexts encrypt them. */
  lemma RequestMeansEncryption<P(!new)>(g: Group<P>, gj: CommitmentParams<P>, c: Commitment<P>, r: Request<P>,
      y: Scalar, r1: Scalar, r2: Scalar, j3: Scalar, M3: P, M4: P)
    requires IsGroup(g) && Opens(g, gj, c, j3, M3, M4)
    ensures RequestStatement(g, gj, c, r, y, r1, r2, j3) <==> Encrypts(g, r, y, r1, r2, M3, M4)
  {
    Blinded(g, r.D2, g.mult(r.publicKey, r1), M3, gj.G_j1, j3);
    Blinded(g, r.E2, g.mult(r.publicKey, r2), M4, gj.G_j2, j3);
  }

  function RequestVerdict<P>(g: Group<P>, h: Hmac, gj: CommitmentParams<P>, c: Commitment<P>, r: Request<P>,
      proof: Bytes): Result<bool, StatementError>
    requires IsHmac(h)
  {
    Verdict(g, h, AfterCalls(REQUEST_CALLS), proof, RequestPoints(g, gj, c, r), [])
  }

  /** A client that encrypts what it committed to, and proves it, is never turned away. */
  lemma HonestRequestAccepted<P(!new)>(g: Group<P>, h: Hmac, gj: CommitmentParams<P>, c: Commitment<P>, r: Request<P>,
      y: Scalar, r1: Scalar, r2: Scalar, j3: Scalar, M3: P, M4: P, random: Bytes)
    requires IsGroup(g) && IsHmac(h)
    requires Opens(g, gj, c, j3, M3, M4) && Encrypts(g, r, y, r1, r2, M3, M4)
    ensures var blob := ProofBlob(g, h, AfterCalls(REQUEST_CALLS), RequestScalars(y, r1, r2, j3),
                                  RequestPoints(g, gj, c, r), [], random);
      blob.Ok? && |blob.value| == 160 && RequestVerdict(g, h, gj, c, r, blob.value) == Ok(true)
  {
    RequestMeansEncryption(g, gj, c, r, y, r1, r2, j3, M3, M4);
    RequestArgumentsMatch(g, gj, c, r, y, r1, r2, j3);
    RequestLists();
    RequestHolds(g, gj, c, r, y, r1, r2, j3);
    ProverConvincesVerifier(g, h, AfterCalls(REQUEST_CALLS), RequestScalars(y, r1, r2, j3), RequestPoints(g, gj, c, r), [], random);
    BlobLength(g, h, AfterCalls(REQUEST_CALLS), RequestScalars(y, r1, r2, j3), RequestPoints(g, gj, c, r), [], random);
  }

  /** Two request proofs that share their commitments reveal scalars under which the
      request statement is true: its prover knew what it encrypted. */
  lemma RequestProofsRevealKeys<P(!new)>(g: Group<P>, gj: CommitmentParams<P>, c: Commitment<P>, r: Request<P>,
      a: ProofValue, b: ProofValue, inverse: Scalar)
    requires IsGroup(g)
    requires |a.response| == |b.response| == |AfterCalls(REQUEST_CALLS).tables.scalars|
    requires PointArguments(g, AfterCalls(REQUEST_CALLS), RequestPoints(g, gj, c, r)).Ok?
    requires AllInRange(AfterCalls(REQUEST_CALLS).equations, |a.response|, |AfterCalls(REQUEST_CALLS).tables.points|)
    requires var points := PointArguments(g, AfterCalls(REQUEST_CALLS), RequestPoints(g, gj, c, r)).value;
             (Recomputed(g, AfterCalls(REQUEST_CALLS).equations, points, a)
              == Recomputed(g, AfterCalls(REQUEST_CALLS).equations, points, b))
    requires Times(Minus(a.challenge, b.challenge), inverse) == 1
    ensures exists y, r1, r2, j3 :: RequestStatement(g, gj, c, r, y, r1, r2, j3)
  {
    var st := AfterCalls(REQUEST_CALLS);
    ProofsRevealWitness(g, st, RequestPoints(g, gj, c, r), a, b, inverse);
    RequestArgumentsMatch(g, gj, c, r, 0, 0, 0, 0);
    RequestLists();
    var sv := ByName(st.tables.scalars, Extracted(a, b, inverse));
    assert sv.Keys == Names(st.tables.scalars) == RequestScalars(0, 0, 0, 0).Keys;
    HoldingMeansStatement(g, gj, c, r, sv);
  }

  lemma HoldingMeansStatement<P>(g: Group<P>, gj: CommitmentParams<P>, c: Commitment<P>, r: Request<P>, sv: map<string, Scalar>)
    requires sv.Keys == RequestScalars(0, 0, 0, 0).Keys
    requires AllHold(g, RequestEquations(), sv, RequestPoints(g, gj, c, r)["G" := g.base])
    ensures exists y, r1, r2, j3 :: RequestStatement(g, gj, c, r, y, r1, r2, j3)
  {
    assert sv.Keys == {"y", "r1", "r2", "j3"};
    var sv' := RequestScalars(sv["y"], sv["r1"], sv["r2"], sv["j3"]);
    assert sv' == sv;
    RequestHolds(g, gj, c, r, sv["y"], sv["r1"], sv["r2"], sv["j3"]);
  }

  class ProfileKeyCredentialRequest<P(!new)> {
    const request: Request<P>
    const proof: Bytes

    constructor (request: Request<P>, proof: Bytes)
      ensures this.request == request && this.proof == proof
    {
      this.request := request;
      this.proof := proof;
    }
  }

  /** Check the proof; only then does a request object come into being. */
  method MakeRequest<P(!new)>(g: Group<P>, hmac: Hmac, gj: CommitmentParams<P>, commitment: Commitment<P>,
      request: Request<P>, proof: Bytes) returns (r: Result<ProfileKeyCredentialRequest<P>, StatementError>)
    requires IsHmac(hmac)
    ensures r.Ok? <==> RequestVerdict(g, hmac, gj, commitment, request, proof) == Ok(true)
    ensures r.Ok? ==> r.value.request == request && r.value.proof == proof
  {
    var stmt := BuildStatement(g, hmac, REQUEST_CALLS);
    var verified := stmt.Verify(proof, RequestPoints(g, gj, commitment, request), []);
    if verified.Err? {
      return Err(verified.error);
    }
    if !verified.value {
      return Err(VerificationFailed);
    }
    var object' := new ProfileKeyCredentialRequest(request, proof);
    r := Ok(object');
  }
}
