/** Issuing an auth credential: a MAC on five attributes, and a proof that the published
    key made it. */
module AuthCredentials {
  import opened ByteStrings
  import opened Wrappers
  import opened Scalars
  import opened Ristretto
  import opened StatefulHash
  import opened Statements
  import opened StatementProofs
  import opened StatementObjects
  import opened KeyPairs
  import opened Issuance

  // ---------------------------------------------------------------- the statement

  const V_CALL := Call("V", ["w", "G_w", "x0", "U", "x1", "tU", "y1", "M1", "y2", "M2",
                             "y3", "M3", "y4", "M4", "y5", "M5"])
  const AUTH_CALLS := [C_W_CALL, ISSUER_CALL, V_CALL]

  function AuthScalars<P>(key: KeyValue<P>): map<string, Scalar>
    requires |key.y| == 5
  {
    map["w" := key.w, "wprime" := key.wprime, "x0" := key.x0, "x1" := key.x1,
        "y1" := key.y[0], "y2" := key.y[1], "y3" := key.y[2], "y4" := key.y[3], "y5" := key.y[4]]
  }

  function AuthPoints<P>(g: Group<P>, params: seq<P>, key: KeyValue<P>, t: Scalar, U: P, V: P, M: seq<P>): map<string, P>
    requires |params| == PARAMS && |M| == 5
  {
    map["C_W" := key.C_W, "G_w" := params[CRED_G_w], "G_wprime" := params[CRED_G_wprime],
        "G_V-I" := g.sub(params[CRED_G_V], key.I), "G_x0" := params[CRED_G_x0], "G_x1" := params[CRED_G_x1],
        "G_y1" := params[CRED_G_y + 0], "G_y2" := params[CRED_G_y + 1], "G_y3" := params[CRED_G_y + 2],
        "G_y4" := params[CRED_G_y + 3], "G_y5" := params[CRED_G_y + 4],
        "V" := V, "U" := U, "tU" := g.mult(U, t),
        "M1" := M[0], "M2" := M[1], "M3" := M[2], "M4" := M[3], "M5" := M[4]]
  }

  lemma VCallNames()
    ensures WellFormed(V_CALL)
    ensures Evens(V_CALL.rhs) == ["w", "x0", "x1", "y1", "y2", "y3", "y4", "y5"]
    ensures Odds(V_CALL.rhs) == ["G_w", "U", "tU", "M1", "M2", "M3", "M4", "M5"]
  {}

  const AUTH_SCALARS := ["w", "wprime", "x0", "x1", "y1", "y2", "y3", "y4", "y5"]

  lemma AuthScalarNames<P>(key: KeyValue<P>)
    requires |key.y| == 5
    ensures AuthScalars(key).Keys == Names(AUTH_SCALARS) && |AuthScalars(key).Keys| == 9
  {
    assert Distinct(AUTH_SCALARS);
    DistinctSize(AUTH_SCALARS);
  }

  lemma AuthScalarsMentioned()
    ensures Names(AUTH_SCALARS) == Names(Evens(C_W_CALL.rhs) + Evens(ISSUER_CALL.rhs) + Evens(V_CALL.rhs))
  {
    KeyCallNames();
    VCallNames();
  }

  lemma AuthPointsMentioned<P>(g: Group<P>, params: seq<P>, key: KeyValue<P>, t: Scalar, U: P, V: P, M: seq<P>)
    requires |params| == PARAMS && |M| == 5
    ensures AuthPoints(g, params, key, t, U, V, M)["G" := g.base].Keys
         == Names(["G"] + ["C_W"] + Odds(C_W_CALL.rhs) + ["G_V-I"] + Odds(ISSUER_CALL.rhs) + ["V"] + Odds(V_CALL.rhs))
  {
    KeyCallNames();
    VCallNames();
  }

  /** The arguments name exactly what the statement names, so that proving cannot fail. */
  lemma AuthArgumentsMatch<P>(g: Group<P>, params: seq<P>, key: KeyValue<P>, t: Scalar, U: P, V: P, M: seq<P>)
    requires |params| == PARAMS && |M| == 5 && |key.y| == 5
    ensures AfterCalls(AUTH_CALLS).system == [EquationOf(C_W_CALL), EquationOf(ISSUER_CALL), EquationOf(V_CALL)]
    ensures Match(AfterCalls(AUTH_CALLS).tables.scalars, AuthScalars(key))
    ensures Match(AfterCalls(AUTH_CALLS).tables.points, AuthPoints(g, params, key, t, U, V, M)["G" := g.base])
    ensures |AfterCalls(AUTH_CALLS).tables.scalars| == 9
  {
    ListsOfThree(C_W_CALL, ISSUER_CALL, V_CALL);
    ShortListsBuild(AUTH_CALLS);
    AuthScalarNames(key);
    AuthScalarsMentioned();
    AuthPointsMentioned(g, params, key, t, U, V, M);
    DistinctSize(AfterCalls(AUTH_CALLS).tables.scalars);
  }

  // ---------------------------------------------------------------- the equations hold

  lemma MacEquationHolds<P(!new)>(g: Group<P>, params: seq<P>, key: KeyValue<P>, t: Scalar, U: P, M: seq<P>,
      sv: map<string, Scalar>, pv: map<string, P>)
    requires IsGroup(g) && |params| == PARAMS && |M| == 5 && |key.y| == 5
    requires key.W == g.mult(params[CRED_G_w], key.w)
    requires {"w", "x0", "x1", "y1", "y2", "y3", "y4", "y5"} <= sv.Keys
    requires sv["w"] == key.w && sv["x0"] == key.x0 && sv["x1"] == key.x1 && sv["y1"] == key.y[0] && sv["y2"] == key.y[1]
    requires sv["y3"] == key.y[2] && sv["y4"] == key.y[3] && sv["y5"] == key.y[4]
    requires {"V", "G_w", "U", "tU", "M1", "M2", "M3", "M4", "M5"} <= pv.Keys
    requires pv["V"] == Mac(g, key, t, U, M, 5)
    requires pv["G_w"] == params[CRED_G_w] && pv["U"] == U && pv["tU"] == g.mult(U, t)
    requires pv["M1"] == M[0] && pv["M2"] == M[1] && pv["M3"] == M[2] && pv["M4"] == M[3] && pv["M5"] == M[4]
    ensures Holds(g, EquationOf(V_CALL), sv, pv)
  {
    MacEquation(g, params[CRED_G_w], key, t, U, M, 5);
    HoldsByDot(g, EquationOf(V_CALL), sv, pv, [params[CRED_G_w], U, g.mult(U, t)] + M, [key.w, key.x0, key.x1] + key.y);
  }

  lemma IssuerPartHolds<P(!new)>(g: Group<P>, params: seq<P>, key: KeyValue<P>, t: Scalar, U: P, V: P, M: seq<P>)
    requires IsGroup(g) && |params| == PARAMS && |M| == 5 && |key.y| == 5
    requires key == KeyOf(g, params, key.w, key.wprime, key.x0, key.x1, key.y, 5)
    ensures Holds(g, EquationOf(ISSUER_CALL), AuthScalars(key), AuthPoints(g, params, key, t, U, V, M)["G" := g.base])
  {
    IssuerEquationHolds(g, params, key, AuthScalars(key), AuthPoints(g, params, key, t, U, V, M)["G" := g.base]);
  }

  lemma MacPartHolds<P(!new)>(g: Group<P>, params: seq<P>, key: KeyValue<P>, t: Scalar, U: P, V: P, M: seq<P>)
    requires IsGroup(g) && |params| == PARAMS && |M| == 5 && |key.y| == 5
    requires key.W == g.mult(params[CRED_G_w], key.w) && V == Mac(g, key, t, U, M, 5)
    ensures Holds(g, EquationOf(V_CALL), AuthScalars(key), AuthPoints(g, params, key, t, U, V, M)["G" := g.base])
  {
    MacEquationHolds(g, params, key, t, U, M, AuthScalars(key), AuthPoints(g, params, key, t, U, V, M)["G" := g.base]);
  }

  /** The key made from its secrets, and the MAC made with it, satisfy all three equations. */
  lemma AuthEquationsHold<P(!new)>(g: Group<P>, params: seq<P>, key: KeyValue<P>, t: Scalar, U: P, V: P, M: seq<P>)
    requires IsGroup(g) && |params| == PARAMS && |M| == 5 && |key.y| == 5
    requires key == KeyOf(g, params, key.w, key.wprime, key.x0, key.x1, key.y, 5)
    requires V == Mac(g, key, t, U, M, 5)
    ensures AllHold(g, [EquationOf(C_W_CALL), EquationOf(ISSUER_CALL), EquationOf(V_CALL)], AuthScalars(key),
                    AuthPoints(g, params, key, t, U, V, M)["G" := g.base])
  {
    var sv, pv := AuthScalars(key), AuthPoints(g, params, key, t, U, V, M)["G" := g.base];
    KeyEquationHolds(g, params, key, sv, pv);
    IssuerPartHolds(g, params, key, t, U, V, M);
    MacPartHolds(g, params, key, t, U, V, M);
  }

  /** Issuing always yields a proof that verifies against the published points. */
  lemma AuthProofVerifies<P(!new)>(g: Group<P>, h: Hmac, params: seq<P>, key: KeyValue<P>, t: Scalar, U: P, V: P,
      M: seq<P>, random: Bytes)
    requires IsGroup(g) && IsHmac(h) && |params| == PARAMS && |M| == 5 && |key.y| == 5
    requires key == KeyOf(g, params, key.w, key.wprime, key.x0, key.x1, key.y, 5)
    requires V == Mac(g, key, t, U, M, 5)
    ensures var points := AuthPoints(g, params, key, t, U, V, M);
      var blob := ProofBlob(g, h, AfterCalls(AUTH_CALLS), AuthScalars(key), points, [], random);
      blob.Ok? && |blob.value| == 320 && Verdict(g, h, AfterCalls(AUTH_CALLS), blob.value, points, []) == Ok(true)
  {
    AuthArgumentsMatch(g, params, key, t, U, V, M);
    AuthEquationsHold(g, params, key, t, U, V, M);
    ProverConvincesVerifier(g, h, AfterCalls(AUTH_CALLS), AuthScalars(key), AuthPoints(g, params, key, t, U, V, M), [], random);
    BlobLength(g, h, AfterCalls(AUTH_CALLS), AuthScalars(key), AuthPoints(g, params, key, t, U, V, M), [], random);
  }

  // ---------------------------------------------------------------- the response object

  function ResponseBlob<P>(g: Group<P>, t: Scalar, U: P, V: P, proof: Bytes): Bytes {
    [0] + ToBytes(t) + g.bytes(U) + g.bytes(V) + [0x40, 1, 0, 0, 0, 0, 0, 0] + proof
  }

  class AuthCredentialWithPniResponse<P(!new)> {
    const t: Scalar
    const U: P
    const V: P
    const proof: Bytes

    /** The attributes are the points of both identifiers; redemption is the scalar of the time. */
    constructor (g: Group<P>, elligator: Bytes -> P, params: seq<P>, key: KeyPair<P>, sho: Sho,
        attributes: seq<P>, redemption: Scalar, random: Bytes)
      requires IsGroup(g) && IsHmac(sho.hmac) && |params| == PARAMS && |attributes| == 4 && |key.y| == 5
      requires key.Value() == KeyOf(g, params, key.w, key.wprime, key.x0, key.x1, key.y, 5)
      modifies sho
      ensures var start := Ratcheted(sho.hmac, Absorbed(old(sho.State()), random));
        && t == NextScalar(sho.hmac, start)
        && U == NextPoint(g, elligator, sho.hmac, AfterDraws(sho.hmac, start, 1))
      ensures var M := attributes + [g.mult(params[CRED_G_m5], redemption)];
        && V == Mac(g, key.Value(), t, U, M, 5)
        && |proof| == 320
        && Verdict(g, sho.hmac, AfterCalls(AUTH_CALLS), proof, AuthPoints(g, params, key.Value(), t, U, V, M), []) == Ok(true)
        && var drawn := AfterDraws(sho.hmac, Ratcheted(sho.hmac, Absorbed(old(sho.State()), random)), 2);
        && sho.State() == Squeezed(sho.hmac, drawn, 32)
        && Ok(proof) == ProofBlob(g, sho.hmac, AfterCalls(AUTH_CALLS), AuthScalars(key.Value()),
                                  AuthPoints(g, params, key.Value(), t, U, V, M), [], Output(sho.hmac, drawn.cv, 32))
    {
      var M := attributes + [g.mult(params[CRED_G_m5], redemption)];
      sho.Absorb(random);
      sho.Ratchet();
      var t, U, V := key.Prepare(g, elligator, sho, M);
      var stmt := BuildStatement(g, sho.hmac, AUTH_CALLS);
      var scalarArgs := AuthScalars(KeyValue(key.w, key.wprime, key.W, key.x0, key.x1, key.y, key.C_W, key.I));
      var pointArgs := AuthPoints(g, params, KeyValue(key.w, key.wprime, key.W, key.x0, key.x1, key.y, key.C_W, key.I), t, U, V, M);
      var randomBytes := sho.Squeeze(32);
      var blob := stmt.Prove(scalarArgs, pointArgs, [], randomBytes.value);
      AuthProofVerifies(g, sho.hmac, params, key.Value(), t, U, V, M, randomBytes.value);
      this.t, this.U, this.V := t, U, V;
      this.proof := blob.value;
    }

    method Transport(g: Group<P>) returns (blob: Bytes)
      ensures blob == ResponseBlob(g, t, U, V, proof)
    {
      return [0] + ToBytes(t) + g.bytes(U) + g.bytes(V) + [0x40, 1, 0, 0, 0, 0, 0, 0] + proof;
    }
  }

  /** The blob announces the length of its proof. */
  lemma BlobAnnouncesProof<P(!new)>(g: Group<P>, t: Scalar, U: P, V: P, proof: Bytes)
    requires IsGroup(g) && |proof| == 320
    ensures |ResponseBlob(g, t, U, V, proof)| == 425
    ensures LittleEndian(ResponseBlob(g, t, U, V, proof)[97..105]) == |proof|
    ensures ResponseBlob(g, t, U, V, proof)[105..] == proof
  {
    BytesRoundTrip(t);
    assert BytesInjective(g, U, V) && BytesInjective(g, V, U);
    var n: Bytes := [0x40, 1, 0, 0, 0, 0, 0, 0];
    assert ResponseBlob(g, t, U, V, proof)[97..105] == n;
    LengthField(0x40, 1);
  }

  /** The parts of the blob, each read from its own place, are a MAC if the object holds one. */
  lemma BlobReadBack<P(!new)>(g: Group<P>, key: KeyValue<P>, t: Scalar, U: P, V: P, M: seq<P>, proof: Bytes, u: P, v: P)
    requires IsGroup(g) && |M| == 5 && |key.y| == 5 && V == Mac(g, key, t, U, M, 5)
    requires var blob := ResponseBlob(g, t, U, V, proof);
      |blob| >= 97 && g.bytes(u) == blob[33..65] && g.bytes(v) == blob[65..97]
    ensures ResponseBlob(g, t, U, V, proof)[0] == 0 && FromBytes(ResponseBlob(g, t, U, V, proof)[1..33]) == t
    ensures u == U && v == V == Mac(g, key, FromBytes(ResponseBlob(g, t, U, V, proof)[1..33]), u, M, 5)
  {
    BytesRoundTrip(t);
    PointBytesTell(g, U);
    PointBytesTell(g, V);
    var blob := ResponseBlob(g, t, U, V, proof);
    assert blob[1..33] == ToBytes(t) && blob[33..65] == g.bytes(U) && blob[65..97] == g.bytes(V);
  }
}
