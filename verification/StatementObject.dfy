/** The Statement object: its name tables and compiled equations change in place; its
    methods are proved against the functions on statement values. */
module StatementObjects {
  import opened ByteStrings
  import opened Wrappers
  import opened Scalars
  import opened Ristretto
  import opened StatefulHash
  import opened Statements
  import opened Proofs
  import opened SigmaProtocol
  import opened StatementProofs

  /** The map finds every name at its own position. */
  ghost predicate MapOf(m: map<string, byte>, names: seq<string>) {
    && (forall n :: n in m <==> n in names)
    && (forall n :: n in m ==> m[n] < |names| && names[m[n]] == n)
  }

  class Statement<P> {
    const group: Group<P>
    const hmac: Hmac
    var equations: seq<Bytes>
    var scalarMap: map<string, byte>
    var scalars: seq<string>
    var pointMap: map<string, byte>
    var points: seq<string>
    ghost var system: seq<Equation>

    ghost function State(): StatementState
      reads this
    {
      StatementState(Tables(scalars, points), system, equations)
    }

    ghost predicate ValidMaps()
      reads this
    {
      ValidTables(Tables(scalars, points)) && MapOf(scalarMap, scalars) && MapOf(pointMap, points)
    }

    ghost predicate Valid()
      reads this
    {
      ValidMaps() && ValidState(State())
    }

    constructor (group: Group<P>, hmac: Hmac)
      ensures this.group == group && this.hmac == hmac
      ensures Valid() && State() == INITIAL
    {
      this.group := group;
      this.hmac := hmac;
      equations := [];
      scalarMap := map[];
      scalars := [];
      pointMap := map["G" := 0];
      points := ["G"];
      system := [];
    }

    method AddScalar(name: string) returns (r: Result<byte, StatementError>)
      requires ValidMaps()
      modifies this`scalarMap, this`scalars
      ensures ValidMaps()
      ensures Entering(EnterScalar(old(State().tables), name), State().tables, r)
      ensures r.Ok? ==> name in scalars && r.value == Index(scalars, name)
    {
      if name !in scalarMap {
        var index := |scalars|;
        if index > 255 {
          return Err(TooManyScalars);
        }
        scalarMap := scalarMap[name := index];
        scalars := scalars + [name];
        r := Ok(index);
        IndexUnique(scalars, index);
      } else {
        r := Ok(scalarMap[name]);
        IndexUnique(scalars, scalarMap[name]);
      }
    }

    method AddPoint(name: string) returns (r: Result<byte, StatementError>)
      requires ValidMaps()
      modifies this`pointMap, this`points
      ensures ValidMaps()
      ensures Entering(EnterPoint(old(State().tables), name), State().tables, r)
      ensures r.Ok? ==> name in points && r.value == Index(points, name)
    {
      if name !in pointMap {
        var index := |points|;
        if index > 255 {
          return Err(TooManyPoints);
        }
        pointMap := pointMap[name := index];
        points := points + [name];
        r := Ok(index);
        IndexUnique(points, index);
      } else {
        r := Ok(pointMap[name]);
        IndexUnique(points, pointMap[name]);
      }
    }

    /** The two index bytes of one term. */
    method AddTerm(term: Term) returns (r: Result<Bytes, StatementError>)
      requires ValidMaps()
      modifies this`scalarMap, this`scalars, this`pointMap, this`points
      ensures ValidMaps()
      ensures TermEntered(old(State().tables), term, State().tables, r)
    {
      var scalar := AddScalar(term.scalar);
      if scalar.Err? {
        return Err(scalar.error);
      }
      var point := AddPoint(term.point);
      if point.Err? {
        return Err(point.error);
      }
      r := Ok([scalar.value, point.value]);
    }

    /** The loop of add: the terms in order, stopping at the first name that does not fit. */
    method AddTerms(rhs: seq<Term>) returns (r: Result<Bytes, StatementError>)
      requires ValidMaps()
      modifies this`scalarMap, this`scalars, this`pointMap, this`points
      ensures ValidMaps()
      ensures TermsEntered(old(State().tables), rhs, |rhs|, State().tables, r)
    {
      ghost var t, ti := State().tables, State().tables;
      var terms: Bytes := [];
      for i := 0 to |rhs|
        invariant ValidMaps() && ti == State().tables
        invariant TermsEntered(t, rhs, i, ti, Ok(terms))
      {
        var term := AddTerm(rhs[i]);
        TermsStep(t, rhs, i, ti, terms, State().tables, term);
        if term.Err? {
          return Err(term.error);
        }
        terms := terms + term.value;
        ti := State().tables;
      }
      r := Ok(terms);
    }

    /** Compile one equation, entering its names. */
    method Compile(lhs: string, rhs: seq<Term>) returns (r: Result<Bytes, StatementError>)
      requires ValidMaps() && 1 <= |rhs| <= 255
      modifies this`scalarMap, this`scalars, this`pointMap, this`points
      ensures ValidMaps()
      ensures Entering(EnterEquation(old(State().tables), Equation(lhs, rhs)), State().tables, r)
      ensures r.Ok? ==> Known(State().tables, Equation(lhs, rhs))
      ensures r.Ok? ==> r.value == Compiled(State().tables, Equation(lhs, rhs))
    {
      var index := AddPoint(lhs);
      if index.Err? {
        return Err(index.error);
      }
      ghost var t := State().tables;
      var terms := AddTerms(rhs);
      if terms.Err? {
        return Err(terms.error);
      }
      EnterTermsGrow(t, rhs, |rhs|);
      IndexStable(t.points, points, lhs);
      assert points[Index(t.points, lhs)] == lhs;
      var header: Bytes := [index.value, |rhs|];
      r := Ok(header + terms.value);
    }

    method Add(lhs: string, rhs: seq<string>) returns (error: Option<StatementError>)
      requires Valid()
      modifies this
      ensures Valid()
      ensures State() == AddCall(old(State()), lhs, rhs).state
      ensures error == AddCall(old(State()), lhs, rhs).error
    {
      AddKeepsValid(State(), lhs, rhs);
      var size := |rhs|;
      if size == 0 || size % 2 != 0 || size > 255 * 2 {
        return Some(BadArguments);
      }
      if |equations| >= 255 {
        return Some(TooManyEquations);
      }

      var equation := Compile(lhs, Pairs(rhs));
      if equation.Err? {
        return Some(equation.error);
      }
      equations := equations + [equation.value];
      system := system + [Equation(lhs, Pairs(rhs))];
      error := None;
    }

    method GetScalars(scalarArgs: map<string, Scalar>) returns (r: Result<seq<Scalar>, StatementError>)
      ensures r == ScalarArguments(State(), scalarArgs)
    {
      var size := |scalarArgs|;
      if size != |scalars| {
        return Err(BadScalarArguments);
      }
      var args := [];
      for i := 0 to size
        invariant |args| == i
        invariant forall k :: 0 <= k < i ==> scalars[k] in scalarArgs && args[k] == scalarArgs[scalars[k]]
      {
        if scalars[i] !in scalarArgs {
          return Err(MissingScalarArgument);
        }
        args := args + [scalarArgs[scalars[i]]];
      }
      r := Ok(args);
      assert args == ScalarArguments(State(), scalarArgs).value;
    }

    /** The mapping comes back with the base point in it, whether or not there is an error. */
    method GetPoints(pointArgs: map<string, P>)
      returns (r: Result<seq<P>, StatementError>, args: map<string, P>)
      ensures r == PointArguments(group, State(), pointArgs)
      ensures args == pointArgs["G" := group.base]
    {
      args := pointArgs["G" := group.base];
      var size := |args|;
      if size != |points| {
        return Err(BadPointArguments), args;
      }
      var list := [];
      for i := 0 to size
        invariant |list| == i
        invariant forall k :: 0 <= k < i ==> points[k] in args && list[k] == args[points[k]]
      {
        if points[i] !in args {
          return Err(MissingPointArgument), args;
        }
        list := list + [args[points[i]]];
      }
      r := Ok(list);
      assert list == PointArguments(group, State(), pointArgs).value;
    }

    method Homomorphism(g1: seq<Scalar>, points: seq<P>) returns (g2: seq<P>)
      requires AllInRange(equations, |g1|, |points|)
      ensures g2 == Image(group, equations, points, g1)
    {
      var size := |equations|;
      g2 := [];
      for i := 0 to size
        invariant g2 == Image(group, equations, points, g1)[..i]
      {
        var equation := equations[i];
        assert equation[2 * 0 + 2] < |g1| && equation[2 * 0 + 3] < |points|;
        var point := group.mult(points[equation[3]], g1[equation[2]]);
        var esize: int := equation[1];
        for j := 1 to esize
          invariant point == Sum(group, equation, j, points, g1)
        {
          point := group.add(point, group.mult(points[equation[2 * j + 3]], g1[equation[2 * j + 2]]));
        }
        g2 := g2 + [point];
      }
    }

    /** A hash object that has absorbed the description and the points. */
    method Open(points: seq<P>) returns (sho: Sho)
      requires |equations| <= 255
      ensures fresh(sho) && sho.hmac == hmac
      ensures sho.State() == Opening(group, hmac, Description(equations), points)
    {
      sho := new Sho(hmac, LABEL);
      sho.Absorb(Description(equations));
      AbsorbPoints(group, sho, points);
      sho.Ratchet();
    }

    /** A second hash object yields the nonces; the first one is left as it was. */
    method DrawNonces(sho: Sho, randomBytes: Bytes, g1: seq<Scalar>, message: Bytes) returns (nonce: seq<Scalar>)
      requires IsHmac(hmac) && sho.hmac == hmac
      ensures nonce == Nonces(hmac, sho.State(), randomBytes, g1, message)
    {
      var sho2 := sho.Clone();
      sho2.Absorb(randomBytes);
      AbsorbScalars(sho2, g1);
      sho2.Ratchet();
      sho2.Absorb(message);
      sho2.Ratchet();
      assert sho2.State() == NonceState(hmac, sho.State(), randomBytes, g1, message);
      var data := sho2.Squeeze(64 * |g1|);
      nonce := CutScalars(data.value, |g1|);
    }

    /** The challenge, once the commitments and the message are absorbed. */
    method DrawChallenge(sho: Sho, commitment: seq<P>, message: Bytes) returns (challenge: Scalar)
      requires IsHmac(hmac) && sho.hmac == hmac
      modifies sho
      ensures challenge == Challenge(group, hmac, old(sho.State()), commitment, message)
    {
      AbsorbPoints(group, sho, commitment);
      sho.Absorb(message);
      sho.Ratchet();
      var output := sho.Squeeze(64);
      challenge := FromBytes(output.value);
    }

    method Recompute(points: seq<P>, proof: ProofValue) returns (commitment: seq<P>)
      requires AllInRange(equations, |proof.response|, |points|)
      ensures commitment == Recomputed(group, equations, points, proof)
    {
      var image := Homomorphism(proof.response, points);
      commitment := [];
      for i := 0 to |image|
        invariant commitment == Recomputed(group, equations, points, proof)[..i]
      {
        commitment := commitment + [group.sub(image[i], group.mult(points[equations[i][0]], proof.challenge))];
      }
    }

    /** Nonces, commitments, challenge and responses. */
    method Respond(g1: seq<Scalar>, points: seq<P>, message: Bytes, randomBytes: Bytes) returns (proof: ProofValue)
      requires IsHmac(hmac) && |equations| <= 255 && AllInRange(equations, |g1|, |points|)
      ensures proof == Proved(group, hmac, Description(equations), equations, points, g1, message, randomBytes)
    {
      var sho := Open(points);
      var nonce := DrawNonces(sho, randomBytes, g1, message);
      var commitment := Homomorphism(nonce, points);
      var challenge := DrawChallenge(sho, commitment, message);
      var response := MakeResponses(g1, challenge, nonce);
      proof := ProofValue(challenge, response);
    }

    /** Commitments recomputed from the responses, and the challenge they lead to. */
    method Check(points: seq<P>, proof: ProofValue, message: Bytes) returns (ok: bool)
      requires IsHmac(hmac) && |equations| <= 255 && AllInRange(equations, |proof.response|, |points|)
      ensures ok == Accepted(group, hmac, Description(equations), equations, points, proof, message)
    {
      var sho := Open(points);
      var challenge := proof.challenge;
      var commitment := Recompute(points, proof);
      var expected := DrawChallenge(sho, commitment, message);
      ok := challenge == expected;
    }

    method Prove(scalarArgs: map<string, Scalar>, pointArgs: map<string, P>, message: Bytes, randomBytes: Bytes)
      returns (r: Result<Bytes, StatementError>)
      requires Valid() && IsHmac(hmac)
      ensures r == ProofBlob(group, hmac, State(), scalarArgs, pointArgs, message, randomBytes)
    {
      var g1 := GetScalars(scalarArgs);
      if g1.Err? {
        return Err(g1.error);
      }
      var points, _ := GetPoints(pointArgs);
      if points.Err? {
        return Err(points.error);
      }
      StateInRange(State());
      var value := Respond(g1.value, points.value, message, randomBytes);
      var proof := new Proof(value.challenge, value.response);
      var blob := proof.Transport();
      r := Ok(blob);
    }

    method Verify(proofBytes: Bytes, pointArgs: map<string, P>, message: Bytes)
      returns (r: Result<bool, StatementError>)
      requires Valid() && IsHmac(hmac)
      ensures r == Verdict(group, hmac, State(), proofBytes, pointArgs, message)
    {
      var proof := RemoteProof(proofBytes);
      if proof.None? {
        return Err(BadProof);
      }
      if |proof.value.response| != |scalars| {
        return Ok(false);
      }
      var points, _ := GetPoints(pointArgs);
      if points.Err? {
        return Err(points.error);
      }
      StateInRange(State());
      var ok := Check(points.value, proof.value, message);
      r := Ok(ok);
    }
  }

  /** A new statement with one add call after another. */
  method BuildStatement<P>(g: Group<P>, hmac: Hmac, calls: seq<Call>) returns (stmt: Statement<P>)
    ensures fresh(stmt) && stmt.Valid() && stmt.group == g && stmt.hmac == hmac && stmt.State() == AfterCalls(calls)
  {
    stmt := new Statement(g, hmac);
    for i := 0 to |calls|
      invariant fresh(stmt) && stmt.Valid() && stmt.State() == AfterCalls(calls[..i])
    {
      var error := stmt.Add(calls[i].lhs, calls[i].rhs);
      assert calls[..i + 1][..i] == calls[..i];
    }
    assert calls[..|calls|] == calls;
  }

  method CutScalars(data: Bytes, size: nat) returns (scalars: seq<Scalar>)
    requires |data| == 64 * size
    ensures scalars == Cut(data, size)
  {
    scalars := [];
    for i := 0 to size
      invariant scalars == Cut(data, i)
    {
      scalars := scalars + [FromBytes(data[i * 64..i * 64 + 64])];
    }
  }

  method MakeResponses(g1: seq<Scalar>, challenge: Scalar, nonce: seq<Scalar>) returns (response: seq<Scalar>)
    requires |nonce| == |g1|
    ensures response == Responses(g1, challenge, nonce)
  {
    response := [];
    for i := 0 to |g1|
      invariant response == Responses(g1, challenge, nonce)[..i]
    {
      response := response + [Plus(Times(g1[i], challenge), nonce[i])];
    }
  }

  method AbsorbPoints<P>(group: Group<P>, sho: Sho, points: seq<P>)
    modifies sho
    ensures sho.State() == AbsorbedAll(old(sho.State()), PointBytes(group, points))
  {
    ghost var all := PointBytes(group, points);
    for i := 0 to |points|
      invariant sho.State() == AbsorbedAll(old(sho.State()), all[..i])
    {
      AbsorbedNext(old(sho.State()), all, i);
      sho.Absorb(group.bytes(points[i]));
    }
    assert all[..|points|] == all;
  }

  method AbsorbScalars(sho: Sho, scalars: seq<Scalar>)
    modifies sho
    ensures sho.State() == AbsorbedAll(old(sho.State()), ScalarBytes(scalars))
  {
    ghost var all := ScalarBytes(scalars);
    for i := 0 to |scalars|
      invariant sho.State() == AbsorbedAll(old(sho.State()), all[..i])
    {
      AbsorbedNext(old(sho.State()), all, i);
      sho.Absorb(ToBytes(scalars[i]));
    }
    assert all[..|scalars|] == all;
  }

  /** Tables and outcome of entering names. */
  ghost predicate Entering<T>(e: Entered, t: Tables, r: Result<T, StatementError>) {
    t == e.tables && (r.Err? <==> e.error.Some?) && (r.Err? ==> r.error == e.error.value)
  }

  /** The first n terms were entered into t, giving t' and their bytes, or the first error. */
  ghost predicate TermsEntered(t: Tables, terms: seq<Term>, n: nat, t': Tables, r: Result<Bytes, StatementError>)
    requires n <= |terms|
  {
    && ValidTables(t')
    && Entering(EnterTerms(t, terms, n), t', r)
    && (r.Ok? ==> TermsKnown(t', terms, n) && r.value == CompiledTerms(t', terms, n))
  }

  ghost predicate TermEntered(t: Tables, term: Term, t': Tables, r: Result<Bytes, StatementError>) {
    && ValidTables(t')
    && Entering(EnterTerm(t, term), t', r)
    && (r.Ok? ==> (term.scalar in t'.scalars && term.point in t'.points
                   && r.value == [Index(t'.scalars, term.scalar), Index(t'.points, term.point)]))
  }

  lemma TermsStep(t: Tables, terms: seq<Term>, i: nat, ti: Tables, bytes: Bytes, t': Tables, r: Result<Bytes, StatementError>)
    requires i < |terms| && TermsEntered(t, terms, i, ti, Ok(bytes)) && TermEntered(ti, terms[i], t', r)
    ensures r.Ok? ==> TermsEntered(t, terms, i + 1, t', Ok(bytes + r.value))
    ensures r.Err? ==> TermsEntered(t, terms, |terms|, t', Err(r.error))
  {
    EnterTermGrows(ti, terms[i]);
    if r.Ok? {
      CompiledTermsStable(ti, t', terms, i);
    } else {
      FailedTerms(t, terms, i + 1);
    }
  }

  /** Once entering terms has failed, later terms change nothing. */
  lemma {:induction false} FailedTerms(t: Tables, terms: seq<Term>, n: nat)
    requires n <= |terms| && EnterTerms(t, terms, n).error.Some?
    ensures EnterTerms(t, terms, |terms|) == EnterTerms(t, terms, n)
    decreases |terms| - n
  {
    if n < |terms| { FailedTerms(t, terms, n + 1); }
  }
}
