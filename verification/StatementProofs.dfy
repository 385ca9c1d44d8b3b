/** Proving and verifying a statement from named arguments to bytes and back. */
module StatementProofs {
  import opened ByteStrings
  import opened Wrappers
  import opened Scalars
  import opened Ristretto
  import opened StatefulHash
  import opened Statements
  import opened Proofs
  import opened SigmaProtocol

  /** Named arguments in table order: as many as names, and every name present. */
  function Arguments<T>(names: seq<string>, args: map<string, T>,
      bad: StatementError, missing: StatementError): (r: Result<seq<T>, StatementError>)
    ensures r.Ok? ==> |r.value| == |names|
    ensures r.Ok? ==> forall i :: 0 <= i < |names| ==> names[i] in args && r.value[i] == args[names[i]]
  {
    if |args| != |names| then Err(bad)
    else if exists i :: 0 <= i < |names| && names[i] !in args then Err(missing)
    else Ok(seq(|names|, i requires 0 <= i < |names| => args[names[i]]))
  }

  function ScalarArguments(st: StatementState, args: map<string, Scalar>): (r: Result<seq<Scalar>, StatementError>)
    ensures r.Ok? ==> |r.value| == |st.tables.scalars|
  {
    Arguments(st.tables.scalars, args, BadScalarArguments, MissingScalarArgument)
  }

  /** The base point is supplied by the statement itself. */
  function PointArguments<P>(g: Group<P>, st: StatementState, args: map<string, P>): (r: Result<seq<P>, StatementError>)
    ensures r.Ok? ==> |r.value| == |st.tables.points|
  {
    Arguments(st.tables.points, args["G" := g.base], BadPointArguments, MissingPointArgument)
  }

  function ProofBlob<P>(g: Group<P>, h: Hmac, st: StatementState, scalarArgs: map<string, Scalar>,
      pointArgs: map<string, P>, message: Bytes, random: Bytes): Result<Bytes, StatementError>
    requires IsHmac(h) && ValidState(st)
  {
    var g1 := ScalarArguments(st, scalarArgs);
    if g1.Err? then Err(g1.error)
    else
      var points := PointArguments(g, st, pointArgs);
      if points.Err? then Err(points.error)
      else
        StateInRange(st);
        Ok(Printed(Proved(g, h, Description(st.equations), st.equations, points.value, g1.value, message, random)))
  }

  function Verdict<P>(g: Group<P>, h: Hmac, st: StatementState, blob: Bytes, pointArgs: map<string, P>,
      message: Bytes): Result<bool, StatementError>
    requires IsHmac(h) && ValidState(st)
  {
    var proof := Parsed(blob);
    if proof.None? then Err(BadProof)
    else if |proof.value.response| != |st.tables.scalars| then Ok(false)
    else
      var points := PointArguments(g, st, pointArgs);
      if points.Err? then Err(points.error)
      else
        StateInRange(st);
        Ok(Accepted(g, h, Description(st.equations), st.equations, points.value, proof.value, message))
  }

  // ---------------------------------------------------------------- what an equation says

  function NamedSum<P>(g: Group<P>, terms: seq<Term>, n: nat, sv: map<string, Scalar>, pv: map<string, P>): P
    requires 1 <= n <= |terms|
    requires forall i :: 0 <= i < n ==> terms[i].scalar in sv && terms[i].point in pv
  {
    var t := g.mult(pv[terms[n - 1].point], sv[terms[n - 1].scalar]);
    if n == 1 then t else g.add(NamedSum(g, terms, n - 1, sv, pv), t)
  }

  predicate Assigned<P>(eq: Equation, sv: map<string, Scalar>, pv: map<string, P>) {
    && eq.lhs in pv && |eq.rhs| >= 1
    && forall i :: 0 <= i < |eq.rhs| ==> eq.rhs[i].scalar in sv && eq.rhs[i].point in pv
  }

  /** The left-hand point is the sum of the right-hand points times their scalars. */
  ghost predicate Holds<P>(g: Group<P>, eq: Equation, sv: map<string, Scalar>, pv: map<string, P>) {
    Assigned(eq, sv, pv) && pv[eq.lhs] == NamedSum(g, eq.rhs, |eq.rhs|, sv, pv)
  }

  ghost predicate AllHold<P>(g: Group<P>, system: seq<Equation>, sv: map<string, Scalar>, pv: map<string, P>) {
    forall i :: 0 <= i < |system| ==> Holds(g, system[i], sv, pv)
  }

  /** The arguments name exactly what the statement names. */
  ghost predicate Match<T>(names: seq<string>, args: map<string, T>) {
    args.Keys == Names(names)
  }

  lemma MatchedArguments<T>(names: seq<string>, args: map<string, T>, bad: StatementError, missing: StatementError)
    requires Distinct(names)
    ensures Arguments(names, args, bad, missing).Ok? <==> Match(names, args)
  {
    DistinctSize(names);
    assert |args| == |args.Keys|;
    if Arguments(names, args, bad, missing).Ok? {
      assert Names(names) <= args.Keys;
      SubsetEqual(Names(names), args.Keys);
    }
    if Match(names, args) {
      forall i | 0 <= i < |names| ensures names[i] in args {
        assert names[i] in Names(names);
      }
    }
  }

  lemma SubsetEqual(a: set<string>, b: set<string>)
    requires a <= b && |a| == |b|
    ensures a == b
  {
    assert b == a + (b - a);
    assert |b - a| == 0;
  }

  lemma {:induction false} SumAgrees<P>(g: Group<P>, t: Tables, eq: Equation, n: nat,
      sv: map<string, Scalar>, pv: map<string, P>, g1: seq<Scalar>, points: seq<P>)
    requires ValidTables(t) && Known(t, eq) && 1 <= n <= |eq.rhs|
    requires |g1| == |t.scalars| && |points| == |t.points|
    requires InRange(Compiled(t, eq), |g1|, |points|)
    requires forall i :: 0 <= i < |g1| ==> t.scalars[i] in sv && g1[i] == sv[t.scalars[i]]
    requires forall i :: 0 <= i < |points| ==> t.points[i] in pv && points[i] == pv[t.points[i]]
    ensures Assigned(eq, sv, pv)
    ensures Sum(g, Compiled(t, eq), n, points, g1) == NamedSum(g, eq.rhs, n, sv, pv)
  {
    CompiledFaithfully(t, eq);
    var term := eq.rhs[n - 1];
    assert term == Term(t.scalars[Compiled(t, eq)[2 * (n - 1) + 2]], t.points[Compiled(t, eq)[2 * (n - 1) + 3]]);
    if n > 1 {
      SumAgrees(g, t, eq, n - 1, sv, pv, g1, points);
    }
  }

  /** The compiled system is satisfied exactly when every named equation holds. */
  lemma SatisfiedMeansHolds<P>(g: Group<P>, st: StatementState, sv: map<string, Scalar>, pv: map<string, P>,
      g1: seq<Scalar>, points: seq<P>)
    requires ValidState(st) && |g1| == |st.tables.scalars| && |points| == |st.tables.points|
    requires AllInRange(st.equations, |g1|, |points|)
    requires forall i :: 0 <= i < |g1| ==> st.tables.scalars[i] in sv && g1[i] == sv[st.tables.scalars[i]]
    requires forall i :: 0 <= i < |points| ==> st.tables.points[i] in pv && points[i] == pv[st.tables.points[i]]
    ensures Satisfied(g, st.equations, points, g1) <==> AllHold(g, st.system, sv, pv)
  {
    var image, targets := Image(g, st.equations, points, g1), Targets(st.equations, |g1|, points);
    forall i | 0 <= i < |st.system|
      ensures image[i] == targets[i] <==> Holds(g, st.system[i], sv, pv)
    {
      var eq := st.system[i];
      SumAgrees(g, st.tables, eq, |eq.rhs|, sv, pv, g1, points);
      CompiledFaithfully(st.tables, eq);
    }
    if AllHold(g, st.system, sv, pv) {
      assert image == targets;
    }
  }

  // ---------------------------------------------------------------- main results

  /** The verdict on a printed proof: acceptance when the blob carries 1 to 255 responses. */
  lemma VerdictOnPrinted<P>(g: Group<P>, h: Hmac, st: StatementState, proof: ProofValue, pointArgs: map<string, P>,
      message: Bytes)
    requires IsHmac(h) && ValidState(st) && |proof.response| == |st.tables.scalars|
    requires AllInRange(st.equations, |proof.response|, |st.tables.points|)
    requires PointArguments(g, st, pointArgs).Ok?
    ensures Verdict(g, h, st, Printed(proof), pointArgs, message)
         == if 1 <= |proof.response| <= 255
            then Ok(Accepted(g, h, Description(st.equations), st.equations,
                             PointArguments(g, st, pointArgs).value, proof, message))
            else Err(BadProof)
  {
    BlobRoundTrip(proof);
  }

  lemma MatchingPoints<P>(g: Group<P>, st: StatementState, pointArgs: map<string, P>)
    requires ValidState(st)
    ensures PointArguments(g, st, pointArgs).Ok? <==> Match(st.tables.points, pointArgs["G" := g.base])
  {
    MatchedArguments(st.tables.points, pointArgs["G" := g.base], BadPointArguments, MissingPointArgument);
  }

  /** A proof that can be read is accepted in one case: it has a response for each scalar, the
      points are just those of the statement, and its challenge is the one that comes of hashing
      the statement with its points, and then the commitments recomputed and the message. */
  lemma VerdictInHmac<P(!new)>(g: Group<P>, h: Hmac, st: StatementState, proof: ProofValue, pointArgs: map<string, P>,
      message: Bytes)
    requires IsGroup(g) && IsHmac(h) && ValidState(st) && 1 <= |proof.response| <= 255
    ensures AllInRange(st.equations, |st.tables.scalars|, |st.tables.points|)
    ensures var verdict, points := Verdict(g, h, st, Printed(proof), pointArgs, message), PointArguments(g, st, pointArgs);
      if |proof.response| != |st.tables.scalars| then verdict == Ok(false)
      else if !Match(st.tables.points, pointArgs["G" := g.base]) then verdict.Err?
      else
        && points.Ok? && verdict.Ok?
        && var opening := h(h(Zeros(32), LABEL + [0]), Transcript(g, Description(st.equations), points.value));
        var commitments := Concat(PointBytes(g, Recomputed(g, st.equations, points.value, proof)));
        var key := h(opening, commitments + message + [0]);
        verdict.value <==>
        proof.challenge == LittleEndian(h(key, [0, 0, 0, 0, 0, 0, 0, 0, 1]) + h(key, [0, 0, 0, 0, 0, 0, 0, 1, 1])) % ELL
  {
    StateInRange(st);
    BlobRoundTrip(proof);
    MatchingPoints(g, st, pointArgs);
    var points := PointArguments(g, st, pointArgs);
    if |proof.response| == |st.tables.scalars| && points.Ok? {
      VerdictOnPrinted(g, h, st, proof, pointArgs, message);
      AcceptedInHmac(g, h, Description(st.equations), st.equations, points.value, proof, message);
    }
  }

  /** Arguments whose names match pass both checks and arrive in table order. */
  lemma MatchingArguments<P>(g: Group<P>, st: StatementState, scalarArgs: map<string, Scalar>, pointArgs: map<string, P>)
    requires ValidState(st)
    requires Match(st.tables.scalars, scalarArgs) && Match(st.tables.points, pointArgs["G" := g.base])
    ensures ScalarArguments(st, scalarArgs).Ok? && PointArguments(g, st, pointArgs).Ok?
  {
    MatchedArguments(st.tables.scalars, scalarArgs, BadScalarArguments, MissingScalarArgument);
    MatchedArguments(st.tables.points, pointArgs["G" := g.base], BadPointArguments, MissingPointArgument);
  }

  /** In terms of arguments in table order: honest proofs are accepted. */
  lemma HonestProofAccepted<P(!new)>(g: Group<P>, h: Hmac, st: StatementState, scalarArgs: map<string, Scalar>,
      pointArgs: map<string, P>, message: Bytes, random: Bytes)
    requires IsGroup(g) && IsHmac(h) && ValidState(st)
    requires ScalarArguments(st, scalarArgs).Ok? && PointArguments(g, st, pointArgs).Ok?
    requires AllInRange(st.equations, |st.tables.scalars|, |st.tables.points|)
    requires AllHold(g, st.system, scalarArgs, pointArgs["G" := g.base])
    ensures var g1, points := ScalarArguments(st, scalarArgs).value, PointArguments(g, st, pointArgs).value;
      Accepted(g, h, Description(st.equations), st.equations, points,
               Proved(g, h, Description(st.equations), st.equations, points, g1, message, random), message)
  {
    var g1, points := ScalarArguments(st, scalarArgs).value, PointArguments(g, st, pointArgs).value;
    SatisfiedMeansHolds(g, st, scalarArgs, pointArgs["G" := g.base], g1, points);
    Complete(g, h, Description(st.equations), st.equations, points, g1, message, random);
  }

  /** The blob is the printed proof. */
  lemma BlobIsPrinted<P>(g: Group<P>, h: Hmac, st: StatementState, scalarArgs: map<string, Scalar>,
      pointArgs: map<string, P>, message: Bytes, random: Bytes)
    requires IsHmac(h) && ValidState(st)
    requires ScalarArguments(st, scalarArgs).Ok? && PointArguments(g, st, pointArgs).Ok?
    requires AllInRange(st.equations, |st.tables.scalars|, |st.tables.points|)
    ensures ProofBlob(g, h, st, scalarArgs, pointArgs, message, random) ==
            Ok(Printed(Proved(g, h, Description(st.equations), st.equations, PointArguments(g, st, pointArgs).value,
                              ScalarArguments(st, scalarArgs).value, message, random)))
  {
  }

  /** Proving never fails on arguments that name exactly the statement's scalars and points,
      and, when the equations hold, the verifier accepts what the prover returns -- unless
      the statement has no scalars, or all 256, when the blob itself is rejected. */
  lemma ProverConvincesVerifier<P(!new)>(g: Group<P>, h: Hmac, st: StatementState, scalarArgs: map<string, Scalar>,
      pointArgs: map<string, P>, message: Bytes, random: Bytes)
    requires IsGroup(g) && IsHmac(h) && ValidState(st)
    requires Match(st.tables.scalars, scalarArgs) && Match(st.tables.points, pointArgs["G" := g.base])
    requires AllHold(g, st.system, scalarArgs, pointArgs["G" := g.base])
    ensures ProofBlob(g, h, st, scalarArgs, pointArgs, message, random).Ok?
    ensures Verdict(g, h, st, ProofBlob(g, h, st, scalarArgs, pointArgs, message, random).value, pointArgs, message)
         == if 1 <= |st.tables.scalars| <= 255 then Ok(true) else Err(BadProof)
  {
    MatchingArguments(g, st, scalarArgs, pointArgs);
    StateInRange(st);
    HonestProofAccepted(g, h, st, scalarArgs, pointArgs, message, random);
    var g1, points := ScalarArguments(st, scalarArgs).value, PointArguments(g, st, pointArgs).value;
    var proof := Proved(g, h, Description(st.equations), st.equations, points, g1, message, random);
    assert |proof.response| == |g1|;
    BlobIsPrinted(g, h, st, scalarArgs, pointArgs, message, random);
    VerdictOnPrinted(g, h, st, proof, pointArgs, message);
  }

  /** The same for whatever statement any sequence of add calls leaves behind. */
  lemma EveryStatementIsComplete<P(!new)>(g: Group<P>, h: Hmac, calls: seq<Call>, scalarArgs: map<string, Scalar>,
      pointArgs: map<string, P>, message: Bytes, random: Bytes)
    requires IsGroup(g) && IsHmac(h)
    requires Match(AfterCalls(calls).tables.scalars, scalarArgs)
    requires Match(AfterCalls(calls).tables.points, pointArgs["G" := g.base])
    requires AllHold(g, AfterCalls(calls).system, scalarArgs, pointArgs["G" := g.base])
    ensures ProofBlob(g, h, AfterCalls(calls), scalarArgs, pointArgs, message, random).Ok?
    ensures Verdict(g, h, AfterCalls(calls),
                    ProofBlob(g, h, AfterCalls(calls), scalarArgs, pointArgs, message, random).value, pointArgs, message)
         == if 1 <= |AfterCalls(calls).tables.scalars| <= 255 then Ok(true) else Err(BadProof)
  {
    ProverConvincesVerifier(g, h, AfterCalls(calls), scalarArgs, pointArgs, message, random);
  }

  /** Scalars in table order, by name. */
  ghost function ByName(names: seq<string>, scalars: seq<Scalar>): map<string, Scalar>
    requires |scalars| == |names|
  {
    map n | n in names :: scalars[Index(names, n)]
  }

  /** Two proofs that reproduce one sequence of commitments under different challenges
      determine named scalars for which every added equation holds. */
  lemma ProofsRevealWitness<P(!new)>(g: Group<P>, st: StatementState, pointArgs: map<string, P>,
      a: ProofValue, b: ProofValue, inverse: Scalar)
    requires IsGroup(g) && ValidState(st)
    requires PointArguments(g, st, pointArgs).Ok?
    requires |a.response| == |b.response| == |st.tables.scalars|
    requires AllInRange(st.equations, |a.response|, |st.tables.points|)
    requires Recomputed(g, st.equations, PointArguments(g, st, pointArgs).value, a)
          == Recomputed(g, st.equations, PointArguments(g, st, pointArgs).value, b)
    requires Times(Minus(a.challenge, b.challenge), inverse) == 1
    ensures AllHold(g, st.system, ByName(st.tables.scalars, Extracted(a, b, inverse)), pointArgs["G" := g.base])
  {
    var w, pv, points := Extracted(a, b, inverse), pointArgs["G" := g.base], PointArguments(g, st, pointArgs).value;
    SpeciallySound(g, st.equations, points, a, b, inverse);
    var sv := ByName(st.tables.scalars, w);
    forall i | 0 <= i < |w| ensures st.tables.scalars[i] in sv && w[i] == sv[st.tables.scalars[i]] {
      IndexUnique(st.tables.scalars, i);
    }
    SatisfiedMeansHolds(g, st, sv, pv, w, points);
  }
}
