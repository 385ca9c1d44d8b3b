/** What the issuing statements share: the two equations about the published key, and how
    an equation over named arguments is shown to hold. */
module Issuance {
  import opened ByteStrings
  import opened Scalars
  import opened Ristretto
  import opened StatefulHash
  import opened Statements
  import opened Proofs
  import opened SigmaProtocol
  import opened StatementProofs
  import opened KeyPairs

  /** An equation holds when its arguments, looked up one by one, sum to its left-hand point. */
  lemma HoldsByDot<P>(g: Group<P>, eq: Equation, sv: map<string, Scalar>, pv: map<string, P>, p: seq<P>, s: seq<Scalar>)
    requires |p| >= |eq.rhs| && |s| >= |eq.rhs| >= 1 && eq.lhs in pv
    requires forall i :: 0 <= i < |eq.rhs| ==>
      eq.rhs[i].scalar in sv && eq.rhs[i].point in pv && sv[eq.rhs[i].scalar] == s[i] && pv[eq.rhs[i].point] == p[i]
    requires pv[eq.lhs] == Dot(g, p, s, |eq.rhs|)
    ensures Holds(g, eq, sv, pv)
  {
    NamedSumIsDot(g, eq.rhs, |eq.rhs|, sv, pv, p, s);
  }

  lemma {:induction false} NamedSumIsDot<P>(g: Group<P>, terms: seq<Term>, n: nat, sv: map<string, Scalar>,
      pv: map<string, P>, p: seq<P>, s: seq<Scalar>)
    requires 1 <= n <= |terms| && |p| >= |terms| && |s| >= |terms|
    requires forall i :: 0 <= i < |terms| ==>
      terms[i].scalar in sv && terms[i].point in pv && sv[terms[i].scalar] == s[i] && pv[terms[i].point] == p[i]
    ensures NamedSum(g, terms, n, sv, pv) == Dot(g, p, s, n)
  {
    if n > 1 { NamedSumIsDot(g, terms, n - 1, sv, pv, p, s); }
  }

  const C_W_CALL := Call("C_W", ["w", "G_w", "wprime", "G_wprime"])
  const ISSUER_CALL := Call("G_V-I", ["x0", "G_x0", "x1", "G_x1", "y1", "G_y1", "y2", "G_y2",
                                      "y3", "G_y3", "y4", "G_y4", "y5", "G_y5"])

  lemma KeyCallNames()
    ensures WellFormed(C_W_CALL) && WellFormed(ISSUER_CALL)
    ensures Evens(C_W_CALL.rhs) == ["w", "wprime"] && Odds(C_W_CALL.rhs) == ["G_w", "G_wprime"]
    ensures Evens(ISSUER_CALL.rhs) == ["x0", "x1", "y1", "y2", "y3", "y4", "y5"]
    ensures Odds(ISSUER_CALL.rhs) == ["G_x0", "G_x1", "G_y1", "G_y2", "G_y3", "G_y4", "G_y5"]
  {}

  lemma IssuerTerms()
    ensures WellFormed(ISSUER_CALL)
    ensures EquationOf(ISSUER_CALL).rhs ==
            [Term("x0", "G_x0"), Term("x1", "G_x1"), Term("y1", "G_y1"), Term("y2", "G_y2"), Term("y3", "G_y3"),
             Term("y4", "G_y4"), Term("y5", "G_y5")]
  {}

  lemma KeyEquationHolds<P>(g: Group<P>, params: seq<P>, key: KeyValue<P>, sv: map<string, Scalar>, pv: map<string, P>)
    requires |params| == PARAMS && |key.y| == 5
    requires key == KeyOf(g, params, key.w, key.wprime, key.x0, key.x1, key.y, 5)
    requires {"w", "wprime"} <= sv.Keys && sv["w"] == key.w && sv["wprime"] == key.wprime
    requires {"C_W", "G_w", "G_wprime"} <= pv.Keys
    requires pv["C_W"] == key.C_W && pv["G_w"] == params[CRED_G_w] && pv["G_wprime"] == params[CRED_G_wprime]
    ensures Holds(g, EquationOf(C_W_CALL), sv, pv)
  {
    assert Dot(g, params, [key.w, key.wprime], 1) == g.mult(params[CRED_G_w], key.w);
    HoldsByDot(g, EquationOf(C_W_CALL), sv, pv, params, [key.w, key.wprime]);
  }

  lemma IssuerEquationHolds<P(!new)>(g: Group<P>, params: seq<P>, key: KeyValue<P>, sv: map<string, Scalar>, pv: map<string, P>)
    requires IsGroup(g) && |params| == PARAMS && |key.y| == 5
    requires key == KeyOf(g, params, key.w, key.wprime, key.x0, key.x1, key.y, 5)
    requires {"x0", "x1", "y1", "y2", "y3", "y4", "y5"} <= sv.Keys
    requires sv["x0"] == key.x0 && sv["x1"] == key.x1 && sv["y1"] == key.y[0] && sv["y2"] == key.y[1]
    requires sv["y3"] == key.y[2] && sv["y4"] == key.y[3] && sv["y5"] == key.y[4]
    requires {"G_V-I", "G_x0", "G_x1", "G_y1", "G_y2", "G_y3", "G_y4", "G_y5"} <= pv.Keys
    requires pv["G_V-I"] == g.sub(params[CRED_G_V], key.I)
    requires pv["G_x0"] == params[CRED_G_x0] && pv["G_x1"] == params[CRED_G_x1]
    requires pv["G_y1"] == params[CRED_G_y + 0] && pv["G_y2"] == params[CRED_G_y + 1]
    requires pv["G_y3"] == params[CRED_G_y + 2] && pv["G_y4"] == params[CRED_G_y + 3] && pv["G_y5"] == params[CRED_G_y + 4]
    ensures Holds(g, EquationOf(ISSUER_CALL), sv, pv)
  {
    IssuerTerms();
    IssuerEquation(g, params, key.x0, key.x1, key.y, 5);
    HoldsByDot(g, EquationOf(ISSUER_CALL), sv, pv, params[CRED_G_x0..], [key.x0, key.x1] + key.y);
  }

  lemma BlobLength<P>(g: Group<P>, h: Hmac, st: StatementState, scalarArgs: map<string, Scalar>,
      pointArgs: map<string, P>, message: Bytes, random: Bytes)
    requires IsHmac(h) && ValidState(st)
    requires ProofBlob(g, h, st, scalarArgs, pointArgs, message, random).Ok?
    ensures |ProofBlob(g, h, st, scalarArgs, pointArgs, message, random).value| == 32 + 32 * |st.tables.scalars|
  {
    StateInRange(st);
    var proof := Proved(g, h, Description(st.equations), st.equations, PointArguments(g, st, pointArgs).value,
                        ScalarArguments(st, scalarArgs).value, message, random);
    BytesRoundTrip(proof.challenge);
    if proof.response != [] { JoinedAt(proof.response, 0); }
  }

  lemma LengthField(a: byte, b: byte)
    ensures LittleEndian([a, b, 0, 0, 0, 0, 0, 0]) == a + 256 * b
  {
    var s: Bytes := [a, b, 0, 0, 0, 0, 0, 0];
    assert s[1..] == [b, 0, 0, 0, 0, 0, 0] && s[1..][1..] == [0, 0, 0, 0, 0, 0];
    var z: Bytes := [0, 0, 0, 0, 0, 0];
    assert z[1..] == [0, 0, 0, 0, 0] && z[1..][1..] == [0, 0, 0, 0] && z[1..][1..][1..] == [0, 0, 0];
    var y: Bytes := [0, 0, 0];
    assert y[1..] == [0, 0] && y[1..][1..] == [0] && y[1..][1..][1..] == [];
    assert LittleEndian([0]) == 0;
    assert LittleEndian(y) == 0;
    assert LittleEndian(y) == LittleEndian(z[1..][1..][1..]);
    assert LittleEndian(z) == 0;
  }
}
