/** Blind issuance: a MAC on five attributes, two of which the issuer sees only encrypted. */
module ProfileKeyResponses {
  import opened ByteStrings
  import opened Wrappers
  import opened Scalars
  import opened Ristretto
  import opened StatefulHash
  import opened Statements
  import opened StatementProofs
  import opened StatementObjects
  import opened KeyPairs
  import opened Issuance
  import opened ProfileKeyRequests

  const S1_CALL := Call("S1", ["y3", "D1", "y4", "E1", "rprime", "G"])
  const S2_CALL := Call("S2", ["y3", "D2", "y4", "E2", "rprime", "Y", "w", "G_w", "x0", "U", "x1", "tU",
                               "y1", "M1", "y2", "M2", "y5", "M5"])
  const RESPONSE_CALLS := [C_W_CALL, ISSUER_CALL, S1_CALL, S2_CALL]

  /** What the response is computed from, and the two blinded points. */
  datatype Issue<P> = Issue(t: Scalar, U: P, Vprime: P, rprime: Scalar, M1: P, M2: P, M5: P, S1: P, S2: P)

  function FirstPoint<P>(g: Group<P>, key: KeyValue<P>, r: Request<P>, rprime: Scalar): P
    requires |key.y| == 5
  {
    g.add(g.add(g.mult(g.base, rprime), g.mult(r.D1, key.y[2])), g.mult(r.E1, key.y[3]))
  }

  function SecondPoint<P>(g: Group<P>, key: KeyValue<P>, r: Request<P>, rprime: Scalar, Vprime: P, M5: P): P
    requires |key.y| == 5
  {
    var R2 := g.add(g.add(g.mult(r.publicKey, rprime), Vprime), g.mult(M5, key.y[4]));
    g.add(g.add(R2, g.mult(r.D2, key.y[2])), g.mult(r.E2, key.y[3]))
  }

  ghost predicate Issued<P>(g: Group<P>, key: KeyValue<P>, r: Request<P>, i: Issue<P>) {
    && |key.y| == 5
    && i.Vprime == Mac(g, key, i.t, i.U, [i.M1, i.M2], 2)
    && i.S1 == FirstPoint(g, key, r, i.rprime)
    && i.S2 == SecondPoint(g, key, r, i.rprime, i.Vprime, i.M5)
  }

  function ResponseScalars<P>(key: KeyValue<P>, rprime: Scalar): map<string, Scalar>
    requires |key.y| == 5
  {
    map["w" := key.w, "wprime" := key.wprime, "x0" := key.x0, "x1" := key.x1, "y1" := key.y[0], "y2" := key.y[1],
        "y3" := key.y[2], "y4" := key.y[3], "y5" := key.y[4], "rprime" := rprime]
  }

  function ResponsePoints<P>(g: Group<P>, params: seq<P>, key: KeyValue<P>, r: Request<P>, i: Issue<P>): map<string, P>
    requires |params| == PARAMS
  {
    map["C_W" := key.C_W, "G_w" := params[CRED_G_w], "G_wprime" := params[CRED_G_wprime],
        "G_V-I" := g.sub(params[CRED_G_V], key.I), "G_x0" := params[CRED_G_x0], "G_x1" := params[CRED_G_x1],
        "G_y1" := params[CRED_G_y + 0], "G_y2" := params[CRED_G_y + 1], "G_y3" := params[CRED_G_y + 2],
        "G_y4" := params[CRED_G_y + 3], "G_y5" := params[CRED_G_y + 4],
        "S1" := i.S1, "D1" := r.D1, "E1" := r.E1, "S2" := i.S2, "D2" := r.D2, "E2" := r.E2, "Y" := r.publicKey,
        "U" := i.U, "tU" := g.mult(i.U, i.t), "M1" := i.M1, "M2" := i.M2, "M5" := i.M5]
  }

  // ---------------------------------------------------------------- names

  lemma BlindCallNames()
    ensures WellFormed(S1_CALL) && Evens(S1_CALL.rhs) == ["y3", "y4", "rprime"] && Odds(S1_CALL.rhs) == ["D1", "E1", "G"]
    ensures WellFormed(S2_CALL)
    ensures Evens(S2_CALL.rhs) == ["y3", "y4", "rprime", "w", "x0", "x1", "y1", "y2", "y5"]
    ensures Odds(S2_CALL.rhs) == ["D2", "E2", "Y", "G_w", "U", "tU", "M1", "M2", "M5"]
  {}

  const RESPONSE_SCALARS := ["w", "wprime", "x0", "x1", "y1", "y2", "y3", "y4", "y5", "rprime"]

  function MentionedScalars(): seq<string> {
    Evens(C_W_CALL.rhs) + Evens(ISSUER_CALL.rhs) + Evens(S1_CALL.rhs) + Evens(S2_CALL.rhs)
  }

  function MentionedPoints(): seq<string> {
    ["G"] + [C_W_CALL.lhs] + Odds(C_W_CALL.rhs) + [ISSUER_CALL.lhs] + Odds(ISSUER_CALL.rhs)
    + [S1_CALL.lhs] + Odds(S1_CALL.rhs) + [S2_CALL.lhs] + Odds(S2_CALL.rhs)
  }

  lemma ResponseScalarNames<P>(key: KeyValue<P>, rprime: Scalar)
    requires |key.y| == 5
    ensures ResponseScalars(key, rprime).Keys == Names(RESPONSE_SCALARS) && |ResponseScalars(key, rprime).Keys| == 10
  {
    assert Distinct(RESPONSE_SCALARS);
    DistinctSize(RESPONSE_SCALARS);
  }

  lemma ResponseScalarsMentioned()
    ensures Names(RESPONSE_SCALARS) == Names(MentionedScalars()) && |MentionedScalars()| == 21
  {
    KeyCallNames();
    BlindCallNames();
  }

  lemma ResponsePointsMentioned<P>(g: Group<P>, params: seq<P>, key: KeyValue<P>, r: Request<P>, i: Issue<P>)
    requires |params| == PARAMS
    ensures ResponsePoints(g, params, key, r, i)["G" := g.base].Keys == Names(MentionedPoints())
    ensures |MentionedPoints()| == 26
  {
    KeyCallNames();
    BlindCallNames();
  }

  function ResponseEquations(): seq<Equation> {
    KeyCallNames();
    BlindCallNames();
    [EquationOf(C_W_CALL), EquationOf(ISSUER_CALL), EquationOf(S1_CALL)] + [EquationOf(S2_CALL)]
  }

  lemma AllHoldFour<P>(g: Group<P>, sv: map<string, Scalar>, pv: map<string, P>)
    requires Holds(g, EquationOf(C_W_CALL), sv, pv) && Holds(g, EquationOf(ISSUER_CALL), sv, pv)
    requires Holds(g, EquationOf(S1_CALL), sv, pv) && Holds(g, EquationOf(S2_CALL), sv, pv)
    ensures AllHold(g, ResponseEquations(), sv, pv)
  {}

  lemma ResponseLists()
    ensures AllWellFormed(RESPONSE_CALLS)
    ensures ScalarList(RESPONSE_CALLS) == MentionedScalars() && PointList(RESPONSE_CALLS) == MentionedPoints()
    ensures Equations(RESPONSE_CALLS) == ResponseEquations()
  {
    KeyCallNames();
    BlindCallNames();
    ListsOfFour(C_W_CALL, ISSUER_CALL, S1_CALL, S2_CALL);
  }

  lemma ListsOfFour(a: Call, b: Call, c: Call, d: Call)
    requires WellFormed(a) && WellFormed(b) && WellFormed(c) && WellFormed(d)
    ensures AllWellFormed([a, b, c, d])
    ensures ScalarList([a, b, c, d]) == Evens(a.rhs) + Evens(b.rhs) + Evens(c.rhs) + Evens(d.rhs)
    ensures PointList([a, b, c, d]) == ["G"] + [a.lhs] + Odds(a.rhs) + [b.lhs] + Odds(b.rhs)
                                     + [c.lhs] + Odds(c.rhs) + [d.lhs] + Odds(d.rhs)
    ensures Equations([a, b, c, d]) == [EquationOf(a), EquationOf(b), EquationOf(c)] + [EquationOf(d)]
  {
    ListsOfThree(a, b, c);
    ListsSnoc([a, b, c], d);
    assert [a, b, c] + [d] == [a, b, c, d];
  }

  lemma ResponseArgumentsMatch<P>(g: Group<P>, params: seq<P>, key: KeyValue<P>, r: Request<P>, i: Issue<P>)
    requires |params| == PARAMS && |key.y| == 5
    ensures AllWellFormed(RESPONSE_CALLS) && AfterCalls(RESPONSE_CALLS).system == Equations(RESPONSE_CALLS)
    ensures Match(AfterCalls(RESPONSE_CALLS).tables.scalars, ResponseScalars(key, i.rprime))
    ensures Match(AfterCalls(RESPONSE_CALLS).tables.points, ResponsePoints(g, params, key, r, i)["G" := g.base])
    ensures |AfterCalls(RESPONSE_CALLS).tables.scalars| == 10
  {
    ResponseLists();
    ResponseScalarNames(key, i.rprime);
    ResponseScalarsMentioned();
    ResponsePointsMentioned(g, params, key, r, i);
    ShortListsBuild(RESPONSE_CALLS);
    DistinctSize(AfterCalls(RESPONSE_CALLS).tables.scalars);
  }

  // ---------------------------------------------------------------- the blinded equations

  lemma FirstPointEquation<P(!new)>(g: Group<P>, key: KeyValue<P>, r: Request<P>, rprime: Scalar)
    requires IsGroup(g) && |key.y| == 5
    ensures FirstPoint(g, key, r, rprime)
         == Dot(g, [r.D1, r.E1, g.base], [key.y[2], key.y[3], rprime], 3)
  {
    var p, s := [r.D1, r.E1, g.base], [key.y[2], key.y[3], rprime];
    var b, d, e := g.mult(g.base, rprime), g.mult(r.D1, key.y[2]), g.mult(r.E1, key.y[3]);
    assert Dot(g, p, s, 1) == d && Dot(g, p, s, 2) == g.add(d, e);
    assert AddAssociates(g, b, d, e);
    assert AddCommutes(g, b, g.add(d, e));
  }

  /** The points and scalars of the S2 equation, in its order. */
  function SecondTerms<P>(g: Group<P>, G_w: P, r: Request<P>, i: Issue<P>): seq<P> {
    [r.D2, r.E2, r.publicKey, G_w, i.U, g.mult(i.U, i.t), i.M1, i.M2, i.M5]
  }

  function SecondFactors<P>(key: KeyValue<P>, rprime: Scalar): seq<Scalar>
    requires |key.y| == 5
  {
    [key.y[2], key.y[3], rprime, key.w, key.x0, key.x1, key.y[0], key.y[1], key.y[4]]
  }

  /** x + (p0 + ... + pn) with the sum re-associated to the left. */
  lemma {:induction false} DotAfter<P(!new)>(g: Group<P>, x: P, p: seq<P>, s: seq<Scalar>, n: nat,
      p': seq<P>, s': seq<Scalar>, k: nat)
    requires IsGroup(g) && 1 <= n <= |p| && n <= |s| && 1 <= k && k + n <= |p'| && k + n <= |s'|
    requires forall i :: 0 <= i < n ==> p'[k + i] == p[i] && s'[k + i] == s[i]
    requires Dot(g, p', s', k) == x
    ensures Dot(g, p', s', k + n) == g.add(x, Dot(g, p, s, n))
  {
    assert p'[k + (n - 1)] == p[n - 1] && s'[k + (n - 1)] == s[n - 1];
    if n > 1 {
      DotAfter(g, x, p, s, n - 1, p', s', k);
      assert AddAssociates(g, x, Dot(g, p, s, n - 1), g.mult(p[n - 1], s[n - 1]));
    }
  }

  lemma SecondPointEquation<P(!new)>(g: Group<P>, G_w: P, key: KeyValue<P>, r: Request<P>, i: Issue<P>)
    requires IsGroup(g) && Issued(g, key, r, i) && key.W == g.mult(G_w, key.w)
    ensures i.S2 == Dot(g, SecondTerms(g, G_w, r, i), SecondFactors(key, i.rprime), 9)
  {
    var p, s := SecondTerms(g, G_w, r, i), SecondFactors(key, i.rprime);
    var d, e, y, v, m := g.mult(r.D2, key.y[2]), g.mult(r.E2, key.y[3]), g.mult(r.publicKey, i.rprime), i.Vprime, g.mult(i.M5, key.y[4]);
    var a := g.add(d, e);
    assert Dot(g, p, s, 1) == d;
    assert Dot(g, p, s, 2) == a;
    assert Dot(g, p, s, 3) == g.add(a, y);
    MacEquation(g, G_w, key, i.t, i.U, [i.M1, i.M2], 2);
    DotAfter(g, g.add(a, y), [G_w, i.U, g.mult(i.U, i.t)] + [i.M1, i.M2], [key.w, key.x0, key.x1] + key.y, 5, p, s, 3);
    assert Dot(g, p, s, 9) == g.add(g.add(g.add(a, y), v), m);
    Regroup(g, d, e, y, v, m);
  }

  /** (((y + v) + m) + d) + e == ((d + e) + y) + v) + m */
  lemma Regroup<P(!new)>(g: Group<P>, d: P, e: P, y: P, v: P, m: P)
    requires IsGroup(g)
    ensures g.add(g.add(g.add(g.add(y, v), m), d), e) == g.add(g.add(g.add(g.add(d, e), y), v), m)
  {
    var a, R := g.add(d, e), g.add(g.add(y, v), m);
    assert AddAssociates(g, R, d, e);
    assert AddCommutes(g, R, a);
    assert AddAssociates(g, a, g.add(y, v), m);
    assert AddAssociates(g, a, y, v);
  }

  // ---------------------------------------------------------------- unblinding

  /** S2 - y*S1 is the plain MAC over all five attributes, whenever the ciphertexts encrypt
      M3 and M4 under the public key of y. */
  lemma UnblindingYieldsMac<P(!new)>(g: Group<P>, key: KeyValue<P>, r: Request<P>, i: Issue<P>,
      y: Scalar, r1: Scalar, r2: Scalar, M3: P, M4: P)
    requires IsGroup(g) && Issued(g, key, r, i) && Encrypts(g, r, y, r1, r2, M3, M4)
    ensures g.sub(i.S2, g.mult(i.S1, y)) == Mac(g, key, i.t, i.U, [i.M1, i.M2, M3, M4, i.M5], 5)
  {
    var Y, y3, y4, v, m := r.publicKey, key.y[2], key.y[3], i.Vprime, g.mult(i.M5, key.y[4]);
    var b, d, e := g.mult(Y, i.rprime), g.mult(g.mult(Y, r1), y3), g.mult(g.mult(Y, r2), y4);
    var c3, c4 := g.mult(M3, y3), g.mult(M4, y4);
    // y*S1 is the blinding
    Unblinded(g, y, i.rprime);
    UnblindedTerm(g, y, r1, y3);
    UnblindedTerm(g, y, r2, y4);
    var B, D, E := g.mult(g.base, i.rprime), g.mult(r.D1, y3), g.mult(r.E1, y4);
    assert MultAdd(g, g.add(B, D), E, y);
    assert MultAdd(g, B, D, y);
    assert g.mult(i.S1, y) == g.add(g.add(b, d), e);
    // S2 is the blinding plus the MAC
    assert MultAdd(g, g.mult(Y, r1), M3, y3);
    assert MultAdd(g, g.mult(Y, r2), M4, y4);
    SplitBlinding(g, b, d, e, v, m, c3, c4);
    MacOfFive(g, key, i.t, i.U, i.M1, i.M2, M3, M4, i.M5);
    assert SubUndoesAdd(g, g.add(g.add(g.add(v, c3), c4), m), g.add(g.add(b, d), e));
  }

  /** (B*r')*y == Y*r' */
  lemma Unblinded<P(!new)>(g: Group<P>, y: Scalar, r: Scalar)
    requires IsGroup(g)
    ensures g.mult(g.mult(g.base, r), y) == g.mult(g.mult(g.base, y), r)
  {
    assert MultTimes(g, g.base, r, y);
    assert MultTimes(g, g.base, y, r);
    TimesCommutes(r, y);
  }

  lemma UnblindedTerm<P(!new)>(g: Group<P>, y: Scalar, r: Scalar, k: Scalar)
    requires IsGroup(g)
    ensures g.mult(g.mult(g.mult(g.base, r), k), y) == g.mult(g.mult(g.mult(g.base, y), r), k)
  {
    var R := g.mult(g.base, r);
    assert MultTimes(g, R, k, y);
    assert MultTimes(g, R, y, k);
    TimesCommutes(k, y);
    Unblinded(g, y, r);
  }

  lemma SplitBlinding<P(!new)>(g: Group<P>, b: P, d: P, e: P, v: P, m: P, c3: P, c4: P)
    requires IsGroup(g)
    ensures g.add(g.add(g.add(g.add(b, v), m), g.add(d, c3)), g.add(e, c4))
         == g.add(g.add(g.add(g.add(v, c3), c4), m), g.add(g.add(b, d), e))
  {
    // ((b + v) + m) == b + (v + m)
    var w := g.add(v, m);
    assert AddAssociates(g, b, v, m);
    Interchange(g, b, w, d, c3);
    Interchange(g, g.add(b, d), g.add(w, c3), e, c4);
    var x, z := g.add(g.add(b, d), e), g.add(g.add(w, c3), c4);
    assert AddCommutes(g, x, z);
    // ((v + m) + c3) + c4 == ((v + c3) + c4) + m
    SwapLast(g, v, m, c3);
    SwapLast(g, g.add(v, c3), m, c4);
  }

  /** (p + q) + r == (p + r) + q */
  lemma SwapLast<P(!new)>(g: Group<P>, p: P, q: P, r: P)
    requires IsGroup(g)
    ensures g.add(g.add(p, q), r) == g.add(g.add(p, r), q)
  {
    assert AddAssociates(g, p, q, r);
    assert AddCommutes(g, q, r);
    assert AddAssociates(g, p, r, q);
  }

  lemma MacOfFive<P>(g: Group<P>, key: KeyValue<P>, t: Scalar, U: P, M1: P, M2: P, M3: P, M4: P, M5: P)
    requires |key.y| == 5
    ensures Mac(g, key, t, U, [M1, M2, M3, M4, M5], 5)
         == g.add(g.add(g.add(Mac(g, key, t, U, [M1, M2], 2), g.mult(M3, key.y[2])), g.mult(M4, key.y[3])), g.mult(M5, key.y[4]))
  {
    var M := [M1, M2, M3, M4, M5];
    MacPrefix(g, key, t, U, M, [M1, M2], 2);
    assert Mac(g, key, t, U, M, 3) == g.add(Mac(g, key, t, U, M, 2), g.mult(M3, key.y[2]));
    assert Mac(g, key, t, U, M, 4) == g.add(Mac(g, key, t, U, M, 3), g.mult(M4, key.y[3]));
  }

  lemma {:induction false} MacPrefix<P>(g: Group<P>, key: KeyValue<P>, t: Scalar, U: P, M: seq<P>, N: seq<P>, n: nat)
    requires n <= |key.y| && n <= |M| && n <= |N| && forall k :: 0 <= k < n ==> M[k] == N[k]
    ensures Mac(g, key, t, U, M, n) == Mac(g, key, t, U, N, n)
  {
    if n > 0 { MacPrefix(g, key, t, U, M, N, n - 1); }
  }

  // ---------------------------------------------------------------- the proof verifies

  lemma FirstHolds<P(!new)>(g: Group<P>, key: KeyValue<P>, r: Request<P>, i: Issue<P>, sv: map<string, Scalar>, pv: map<string, P>)
    requires IsGroup(g) && Issued(g, key, r, i)
    requires {"y3", "y4", "rprime"} <= sv.Keys && sv["y3"] == key.y[2] && sv["y4"] == key.y[3] && sv["rprime"] == i.rprime
    requires {"S1", "D1", "E1", "G"} <= pv.Keys
    requires pv["S1"] == i.S1 && pv["D1"] == r.D1 && pv["E1"] == r.E1 && pv["G"] == g.base
    ensures Holds(g, EquationOf(S1_CALL), sv, pv)
  {
    FirstPointEquation(g, key, r, i.rprime);
    HoldsByDot(g, EquationOf(S1_CALL), sv, pv, [r.D1, r.E1, g.base], [key.y[2], key.y[3], i.rprime]);
  }

  lemma SecondHolds<P(!new)>(g: Group<P>, G_w: P, key: KeyValue<P>, r: Request<P>, i: Issue<P>,
      sv: map<string, Scalar>, pv: map<string, P>)
    requires IsGroup(g) && Issued(g, key, r, i) && key.W == g.mult(G_w, key.w)
    requires {"y3", "y4", "rprime", "w", "x0", "x1", "y1", "y2", "y5"} <= sv.Keys
    requires sv["y3"] == key.y[2] && sv["y4"] == key.y[3] && sv["rprime"] == i.rprime && sv["w"] == key.w
    requires sv["x0"] == key.x0 && sv["x1"] == key.x1 && sv["y1"] == key.y[0] && sv["y2"] == key.y[1] && sv["y5"] == key.y[4]
    requires {"S2", "D2", "E2", "Y", "G_w", "U", "tU", "M1", "M2", "M5"} <= pv.Keys
    requires pv["S2"] == i.S2 && pv["D2"] == r.D2 && pv["E2"] == r.E2 && pv["Y"] == r.publicKey && pv["G_w"] == G_w
    requires pv["U"] == i.U && pv["tU"] == g.mult(i.U, i.t) && pv["M1"] == i.M1 && pv["M2"] == i.M2 && pv["M5"] == i.M5
    ensures Holds(g, EquationOf(S2_CALL), sv, pv)
  {
    SecondPointEquation(g, G_w, key, r, i);
    HoldsByDot(g, EquationOf(S2_CALL), sv, pv, SecondTerms(g, G_w, r, i), SecondFactors(key, i.rprime));
  }

  lemma IssuerPartHolds<P(!new)>(g: Group<P>, params: seq<P>, key: KeyValue<P>, r: Request<P>, i: Issue<P>)
    requires IsGroup(g) && |params| == PARAMS && |key.y| == 5
    requires key == KeyOf(g, params, key.w, key.wprime, key.x0, key.x1, key.y, 5)
    ensures Holds(g, EquationOf(ISSUER_CALL), ResponseScalars(key, i.rprime),
                  ResponsePoints(g, params, key, r, i)["G" := g.base])
  {
    IssuerEquationHolds(g, params, key, ResponseScalars(key, i.rprime), ResponsePoints(g, params, key, r, i)["G" := g.base]);
  }

  lemma KeyPartHolds<P(!new)>(g: Group<P>, params: seq<P>, key: KeyValue<P>, r: Request<P>, i: Issue<P>)
    requires IsGroup(g) && |params| == PARAMS && |key.y| == 5
    requires key == KeyOf(g, params, key.w, key.wprime, key.x0, key.x1, key.y, 5)
    ensures var sv, pv := ResponseScalars(key, i.rprime), ResponsePoints(g, params, key, r, i)["G" := g.base];
      Holds(g, EquationOf(C_W_CALL), sv, pv) && Holds(g, EquationOf(ISSUER_CALL), sv, pv)
  {
    var sv, pv := ResponseScalars(key, i.rprime), ResponsePoints(g, params, key, r, i)["G" := g.base];
    KeyEquationHolds(g, params, key, sv, pv);
    IssuerPartHolds(g, params, key, r, i);
  }

  lemma BlindPartHolds<P(!new)>(g: Group<P>, params: seq<P>, key: KeyValue<P>, r: Request<P>, i: Issue<P>)
    requires IsGroup(g) && |params| == PARAMS && Issued(g, key, r, i) && key.W == g.mult(params[CRED_G_w], key.w)
    ensures var sv, pv := ResponseScalars(key, i.rprime), ResponsePoints(g, params, key, r, i)["G" := g.base];
      Holds(g, EquationOf(S1_CALL), sv, pv) && Holds(g, EquationOf(S2_CALL), sv, pv)
  {
    var sv, pv := ResponseScalars(key, i.rprime), ResponsePoints(g, params, key, r, i)["G" := g.base];
    FirstHolds(g, key, r, i, sv, pv);
    SecondHolds(g, params[CRED_G_w], key, r, i, sv, pv);
  }

  /** All four equations hold for the scalars and points handed to the prover. */
  lemma ResponseEquationsHold<P(!new)>(g: Group<P>, params: seq<P>, key: KeyValue<P>, r: Request<P>, i: Issue<P>)
    requires IsGroup(g) && |params| == PARAMS && Issued(g, key, r, i)
    requires key == KeyOf(g, params, key.w, key.wprime, key.x0, key.x1, key.y, 5)
    ensures AllHold(g, ResponseEquations(), ResponseScalars(key, i.rprime), ResponsePoints(g, params, key, r, i)["G" := g.base])
  {
    KeyPartHolds(g, params, key, r, i);
    BlindPartHolds(g, params, key, r, i);
    AllHoldFour(g, ResponseScalars(key, i.rprime), ResponsePoints(g, params, key, r, i)["G" := g.base]);
  }

  /** Blind issuance always yields a proof that verifies. */
  lemma ResponseProofVerifies<P(!new)>(g: Group<P>, h: Hmac, params: seq<P>, key: KeyValue<P>, r: Request<P>,
      i: Issue<P>, random: Bytes)
    requires IsGroup(g) && IsHmac(h) && |params| == PARAMS && Issued(g, key, r, i)
    requires key == KeyOf(g, params, key.w, key.wprime, key.x0, key.x1, key.y, 5)
    ensures var points := ResponsePoints(g, params, key, r, i);
      var blob := ProofBlob(g, h, AfterCalls(RESPONSE_CALLS), ResponseScalars(key, i.rprime), points, [], random);
      blob.Ok? && |blob.value| == 352 && Verdict(g, h, AfterCalls(RESPONSE_CALLS), blob.value, points, []) == Ok(true)
  {
    ResponseArgumentsMatch(g, params, key, r, i);
    ResponseLists();
    ResponseEquationsHold(g, params, key, r, i);
    ProverConvincesVerifier(g, h, AfterCalls(RESPONSE_CALLS), ResponseScalars(key, i.rprime),
                            ResponsePoints(g, params, key, r, i), [], random);
    BlobLength(g, h, AfterCalls(RESPONSE_CALLS), ResponseScalars(key, i.rprime), ResponsePoints(g, params, key, r, i), [], random);
  }

  // ---------------------------------------------------------------- the response object

  /** expiration is the time as 8 bytes, least significant first. */
  function ResponseBlob<P>(g: Group<P>, t: Scalar, U: P, S1: P, S2: P, expiration: Bytes, proof: Bytes): Bytes {
    [0] + ToBytes(t) + g.bytes(U) + g.bytes(S1) + g.bytes(S2) + expiration + [0x60, 1, 0, 0, 0, 0, 0, 0] + proof
  }

  class ProfileKeyCredentialResponse<P(!new)> {
    const t: Scalar
    const U: P
    const S1: P
    const S2: P
    const proof: Bytes
    ghost const issue: Issue<P>

    /** M1 and M2 are the points of the account; expiration is the scalar of the time. */
    constructor (g: Group<P>, elligator: Bytes -> P, params: seq<P>, key: KeyPair<P>, sho: Sho,
        request: Request<P>, M1: P, M2: P, expiration: Scalar, random: Bytes)
      requires IsGroup(g) && IsHmac(sho.hmac) && |params| == PARAMS && |key.y| == 5
      requires key.Value() == KeyOf(g, params, key.w, key.wprime, key.x0, key.x1, key.y, 5)
      modifies sho
      ensures issue.t == t && issue.U == U && issue.S1 == S1 && issue.S2 == S2
      ensures var start := Ratcheted(sho.hmac, Absorbed(old(sho.State()), random));
        && t == NextScalar(sho.hmac, start)
        && U == NextPoint(g, elligator, sho.hmac, AfterDraws(sho.hmac, start, 1))
        && issue.rprime == NextScalar(sho.hmac, AfterDraws(sho.hmac, start, 2))
      ensures issue.M1 == M1 && issue.M2 == M2 && issue.M5 == g.mult(params[CRED_G_m5], expiration)
      ensures Issued(g, key.Value(), request, issue)
      ensures |proof| == 352
      ensures Verdict(g, sho.hmac, AfterCalls(RESPONSE_CALLS), proof,
                      ResponsePoints(g, params, key.Value(), request, issue), []) == Ok(true)
      ensures var drawn := AfterDraws(sho.hmac, Ratcheted(sho.hmac, Absorbed(old(sho.State()), random)), 3);
        && sho.State() == Squeezed(sho.hmac, drawn, 32)
        && Ok(proof) == ProofBlob(g, sho.hmac, AfterCalls(RESPONSE_CALLS), ResponseScalars(key.Value(), issue.rprime),
                                  ResponsePoints(g, params, key.Value(), request, issue), [], Output(sho.hmac, drawn.cv, 32))
    {
      sho.Absorb(random);
      sho.Ratchet();
      var t, U, Vprime := key.Prepare(g, elligator, sho, [M1, M2]);
      var blinding := sho.GetScalar();
      var rprime := blinding.value;
      var M5 := g.mult(params[CRED_G_m5], expiration);
      var R1 := g.mult(g.base, rprime);
      var R2 := g.add(g.add(g.mult(request.publicKey, rprime), Vprime), g.mult(M5, key.y[4]));
      var S1 := g.add(g.add(R1, g.mult(request.D1, key.y[2])), g.mult(request.E1, key.y[3]));
      var S2 := g.add(g.add(R2, g.mult(request.D2, key.y[2])), g.mult(request.E2, key.y[3]));
      var i := Issue(t, U, Vprime, rprime, M1, M2, M5, S1, S2);
      var value := KeyValue(key.w, key.wprime, key.W, key.x0, key.x1, key.y, key.C_W, key.I);
      var randomBytes := sho.Squeeze(32);
      var blob := ProveResponse(g, sho.hmac, params, value, request, i, randomBytes.value);
      this.t, this.U, this.S1, this.S2 := t, U, S1, S2;
      this.proof := blob;
      this.issue := i;
    }

    method Transport(g: Group<P>, expiration: Bytes) returns (blob: Bytes)
      ensures blob == ResponseBlob(g, t, U, S1, S2, expiration, proof)
    {
      return [0] + ToBytes(t) + g.bytes(U) + g.bytes(S1) + g.bytes(S2)
        + expiration + [0x60, 1, 0, 0, 0, 0, 0, 0] + proof;
    }
  }

  method ProveResponse<P(!new)>(g: Group<P>, hmac: Hmac, params: seq<P>, key: KeyValue<P>, r: Request<P>, i: Issue<P>,
      random: Bytes) returns (proof: Bytes)
    requires IsGroup(g) && IsHmac(hmac) && |params| == PARAMS && Issued(g, key, r, i)
    requires key == KeyOf(g, params, key.w, key.wprime, key.x0, key.x1, key.y, 5)
    ensures |proof| == 352
    ensures Verdict(g, hmac, AfterCalls(RESPONSE_CALLS), proof, ResponsePoints(g, params, key, r, i), []) == Ok(true)
    ensures Ok(proof) == ProofBlob(g, hmac, AfterCalls(RESPONSE_CALLS), ResponseScalars(key, i.rprime),
                                   ResponsePoints(g, params, key, r, i), [], random)
  {
    var stmt := BuildStatement(g, hmac, RESPONSE_CALLS);
    var blob := stmt.Prove(ResponseScalars(key, i.rprime), ResponsePoints(g, params, key, r, i), [], random);
    ResponseProofVerifies(g, hmac, params, key, r, i, random);
    proof := blob.value;
  }

  /** The blob announces the length of its proof. */
  lemma BlobAnnouncesProof<P(!new)>(g: Group<P>, t: Scalar, U: P, S1: P, S2: P, expiration: Bytes, proof: Bytes)
    requires IsGroup(g) && |expiration| == 8 && |proof| == 352
    ensures var blob := ResponseBlob(g, t, U, S1, S2, expiration, proof);
      |blob| == 497 && LittleEndian(blob[137..145]) == |proof| && blob[145..] == proof && blob[129..137] == expiration
  {
    BytesRoundTrip(t);
    assert BytesInjective(g, U, U) && BytesInjective(g, S1, S1) && BytesInjective(g, S2, S2);
    var n: Bytes := [0x60, 1, 0, 0, 0, 0, 0, 0];
    assert ResponseBlob(g, t, U, S1, S2, expiration, proof)[137..145] == n;
    LengthField(0x60, 1);
  }

  /** The whole exchange: a client that committed to M3 and M4 and encrypted them unblinds
      the response into a MAC on all five attributes. */
  lemma ClientObtainsCredential<P(!new)>(g: Group<P>, gj: CommitmentParams<P>, c: Commitment<P>, key: KeyValue<P>,
      r: Request<P>, i: Issue<P>, y: Scalar, r1: Scalar, r2: Scalar, j3: Scalar, M3: P, M4: P)
    requires IsGroup(g) && Issued(g, key, r, i)
    requires Opens(g, gj, c, j3, M3, M4) && RequestStatement(g, gj, c, r, y, r1, r2, j3)
    ensures g.sub(i.S2, g.mult(i.S1, y)) == Mac(g, key, i.t, i.U, [i.M1, i.M2, M3, M4, i.M5], 5)
  {
    RequestMeansEncryption(g, gj, c, r, y, r1, r2, j3, M3, M4);
    UnblindingYieldsMac(g, key, r, i, y, r1, r2, M3, M4);
  }

  /** The parts of the blob, each read from its own place: the scalar, and every point that has
      the bytes in question. */
  lemma BlobReadBack<P(!new)>(g: Group<P>, t: Scalar, U: P, S1: P, S2: P, expiration: Bytes, proof: Bytes)
    requires IsGroup(g)
    ensures var blob := ResponseBlob(g, t, U, S1, S2, expiration, proof);
      && |blob| >= 129 && blob[0] == 0 && FromBytes(blob[1..33]) == t
      && (forall p :: g.bytes(p) == blob[33..65] <==> p == U)
      && (forall p :: g.bytes(p) == blob[65..97] <==> p == S1)
      && (forall p :: g.bytes(p) == blob[97..129] <==> p == S2)
  {
    BytesRoundTrip(t);
    PointBytesTell(g, U);
    PointBytesTell(g, S1);
    PointBytesTell(g, S2);
    var blob := ResponseBlob(g, t, U, S1, S2, expiration, proof);
    assert blob[1..33] == ToBytes(t) && blob[33..65] == g.bytes(U);
    assert blob[65..97] == g.bytes(S1) && blob[97..129] == g.bytes(S2);
  }

  /** What the client computes from the bytes it was sent. */
  lemma ClientReadsCredential<P(!new)>(g: Group<P>, gj: CommitmentParams<P>, c: Commitment<P>, key: KeyValue<P>,
      r: Request<P>, i: Issue<P>, y: Scalar, r1: Scalar, r2: Scalar, j3: Scalar, M3: P, M4: P,
      expiration: Bytes, proof: Bytes, u: P, p: P, q: P)
    requires IsGroup(g) && Issued(g, key, r, i)
    requires Opens(g, gj, c, j3, M3, M4) && RequestStatement(g, gj, c, r, y, r1, r2, j3)
    requires var blob := ResponseBlob(g, i.t, i.U, i.S1, i.S2, expiration, proof);
      |blob| >= 129 && g.bytes(u) == blob[33..65] && g.bytes(p) == blob[65..97] && g.bytes(q) == blob[97..129]
    ensures var t := FromBytes(ResponseBlob(g, i.t, i.U, i.S1, i.S2, expiration, proof)[1..33]);
      g.sub(q, g.mult(p, y)) == Mac(g, key, t, u, [i.M1, i.M2, M3, M4, i.M5], 5)
  {
    BlobReadBack(g, i.t, i.U, i.S1, i.S2, expiration, proof);
    ClientObtainsCredential(g, gj, c, key, r, i, y, r1, r2, j3, M3, M4);
  }
}
