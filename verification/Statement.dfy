/** Statements: systems of equations over named scalars and points, compiled to index bytes. */
module Statements {
  import opened ByteStrings
  import opened Wrappers

  datatype StatementError =
    | BadArguments | TooManyEquations | TooManyScalars | TooManyPoints
    | BadScalarArguments | MissingScalarArgument | BadPointArguments | MissingPointArgument
    | BadProof | VerificationFailed

  datatype Term = Term(scalar: string, point: string)
  datatype Equation = Equation(lhs: string, rhs: seq<Term>)

  // ---------------------------------------------------------------- name tables

  datatype Tables = Tables(scalars: seq<string>, points: seq<string>)
  datatype Entered = Entered(tables: Tables, error: Option<StatementError>)

  predicate Distinct(names: seq<string>) {
    forall i, j :: 0 <= i < j < |names| ==> names[i] != names[j]
  }

  predicate ValidTables(t: Tables) {
    && Distinct(t.scalars) && |t.scalars| <= 256
    && Distinct(t.points) && 1 <= |t.points| <= 256 && t.points[0] == "G"
  }

  function With(names: seq<string>, name: string): seq<string> {
    if name in names then names else names + [name]
  }

  function Index(names: seq<string>, name: string): (i: nat)
    requires name in names
    ensures i < |names| && names[i] == name
  {
    if names[0] == name then 0 else 1 + Index(names[1..], name)
  }

  function EnterScalar(t: Tables, name: string): Entered {
    if name !in t.scalars && |t.scalars| > 255 then Entered(t, Some(TooManyScalars))
    else Entered(t.(scalars := With(t.scalars, name)), None)
  }

  function EnterPoint(t: Tables, name: string): Entered {
    if name !in t.points && |t.points| > 255 then Entered(t, Some(TooManyPoints))
    else Entered(t.(points := With(t.points, name)), None)
  }

  function EnterTerm(t: Tables, term: Term): Entered {
    var e := EnterScalar(t, term.scalar);
    if e.error.Some? then e else EnterPoint(e.tables, term.point)
  }

  /** Entering the first n terms of an equation, stopping at the first error. */
  function EnterTerms(t: Tables, terms: seq<Term>, n: nat): Entered
    requires n <= |terms|
  {
    if n == 0 then Entered(t, None)
    else
      var e := EnterTerms(t, terms, n - 1);
      if e.error.Some? then e else EnterTerm(e.tables, terms[n - 1])
  }

  function EnterEquation(t: Tables, eq: Equation): Entered {
    var e := EnterPoint(t, eq.lhs);
    if e.error.Some? then e else EnterTerms(e.tables, eq.rhs, |eq.rhs|)
  }

  // ---------------------------------------------------------------- compilation

  /** Every name of the first n terms has an index. */
  predicate TermsKnown(t: Tables, terms: seq<Term>, n: nat)
    requires n <= |terms|
  {
    forall i :: 0 <= i < n ==> terms[i].scalar in t.scalars && terms[i].point in t.points
  }

  predicate Known(t: Tables, eq: Equation) {
    eq.lhs in t.points && 1 <= |eq.rhs| <= 255 && TermsKnown(t, eq.rhs, |eq.rhs|)
  }

  function CompiledTerms(t: Tables, terms: seq<Term>, n: nat): (b: Bytes)
    requires ValidTables(t) && n <= |terms| && TermsKnown(t, terms, n)
    ensures |b| == 2 * n
  {
    if n == 0 then []
    else CompiledTerms(t, terms, n - 1) + [Index(t.scalars, terms[n - 1].scalar), Index(t.points, terms[n - 1].point)]
  }

  function Compiled(t: Tables, eq: Equation): (b: Bytes)
    requires ValidTables(t) && Known(t, eq)
    ensures |b| == 2 + 2 * |eq.rhs| && b[1] == |eq.rhs|
  {
    [Index(t.points, eq.lhs), |eq.rhs|] + CompiledTerms(t, eq.rhs, |eq.rhs|)
  }

  /** Equations and description as the object holds them, with the named equations they came from. */
  datatype StatementState = StatementState(tables: Tables, system: seq<Equation>, equations: seq<Bytes>)

  const INITIAL: StatementState := StatementState(Tables([], ["G"]), [], [])

  predicate ValidState(st: StatementState) {
    && ValidTables(st.tables)
    && |st.equations| == |st.system| <= 255
    && forall i :: 0 <= i < |st.system| ==>
         Known(st.tables, st.system[i]) && st.equations[i] == Compiled(st.tables, st.system[i])
  }

  function Pairs(rhs: seq<string>): (terms: seq<Term>)
    requires |rhs| % 2 == 0
    ensures |terms| == |rhs| / 2
  {
    seq(|rhs| / 2, i requires 0 <= i < |rhs| / 2 => Term(rhs[2 * i], rhs[2 * i + 1]))
  }

  datatype Added = Added(state: StatementState, error: Option<StatementError>)

  /** One call of add. An error raised while names are entered leaves those names behind. */
  function AddCall(st: StatementState, lhs: string, rhs: seq<string>): Added
    requires ValidState(st)
  {
    if |rhs| == 0 || |rhs| % 2 != 0 || |rhs| > 510 then Added(st, Some(BadArguments))
    else if |st.equations| >= 255 then Added(st, Some(TooManyEquations))
    else
      var eq := Equation(lhs, Pairs(rhs));
      var e := EnterEquation(st.tables, eq);
      EnterEquationGrows(st.tables, eq);
      if e.error.Some? then Added(st.(tables := e.tables), e.error)
      else Added(StatementState(e.tables, st.system + [eq], st.equations + [Compiled(e.tables, eq)]), None)
  }

  function Description(equations: seq<Bytes>): Bytes
    requires |equations| <= 255
  {
    [|equations|] + Concat(equations)
  }

  /** An equation in bytes: left-hand point, number of terms, then scalar and point of each term. */
  predicate InRange(eq: Bytes, ns: nat, np: nat) {
    && |eq| >= 4 && |eq| == 2 + 2 * (eq[1] as int)
    && eq[0] < np
    && forall j: int :: 0 <= j < eq[1] ==> eq[2 * j + 2] < ns && eq[2 * j + 3] < np
  }

  predicate AllInRange(eqs: seq<Bytes>, ns: nat, np: nat) {
    forall i :: 0 <= i < |eqs| ==> InRange(eqs[i], ns, np)
  }

  // ---------------------------------------------------------------- names only grow

  ghost predicate Grows(t: Tables, t': Tables) {
    t.scalars <= t'.scalars && t.points <= t'.points
  }

  lemma {:induction false} IndexUnique(names: seq<string>, i: nat)
    requires Distinct(names) && i < |names|
    ensures Index(names, names[i]) == i
  {
    if i > 0 {
      assert names[i] == names[1..][i - 1];
      assert names[0] != names[i];
      IndexUnique(names[1..], i - 1);
    }
  }

  lemma IndexStable(names: seq<string>, names': seq<string>, name: string)
    requires Distinct(names') && names <= names' && name in names
    ensures Index(names', name) == Index(names, name)
  {
    var i := Index(names, name);
    assert names'[i] == name;
    IndexUnique(names', i);
  }

  lemma EnterTermGrows(t: Tables, term: Term)
    requires ValidTables(t)
    ensures var e := EnterTerm(t, term);
      ValidTables(e.tables) && Grows(t, e.tables)
      && (e.error.None? ==> term.scalar in e.tables.scalars && term.point in e.tables.points)
  {}

  lemma KnownGrows(t: Tables, t': Tables, terms: seq<Term>, n: nat)
    requires n <= |terms| && TermsKnown(t, terms, n) && Grows(t, t')
    ensures TermsKnown(t', terms, n)
  {
    forall i | 0 <= i < n
      ensures terms[i].scalar in t'.scalars && terms[i].point in t'.points
    {
      var s, p := Index(t.scalars, terms[i].scalar), Index(t.points, terms[i].point);
      assert t'.scalars[s] == terms[i].scalar && t'.points[p] == terms[i].point;
    }
  }

  /** Names entered for the first n terms: none is forgotten, and all are there unless there was an error. */
  ghost predicate GrownTo(t: Tables, e: Entered, terms: seq<Term>, n: nat)
    requires n <= |terms|
  {
    ValidTables(e.tables) && Grows(t, e.tables) && (e.error.None? ==> TermsKnown(e.tables, terms, n))
  }

  lemma NextTermGrows(t: Tables, e: Entered, terms: seq<Term>, n: nat, e': Entered)
    requires 1 <= n <= |terms| && GrownTo(t, e, terms, n - 1)
    requires e' == if e.error.Some? then e else EnterTerm(e.tables, terms[n - 1])
    ensures GrownTo(t, e', terms, n)
  {
    if e.error.None? {
      EnterTermGrows(e.tables, terms[n - 1]);
      KnownGrows(e.tables, e'.tables, terms, n - 1);
    }
  }

  lemma {:induction false} EnterTermsGrow(t: Tables, terms: seq<Term>, n: nat)
    requires ValidTables(t) && n <= |terms|
    ensures GrownTo(t, EnterTerms(t, terms, n), terms, n)
  {
    if n > 0 {
      EnterTermsGrow(t, terms, n - 1);
      NextTermGrows(t, EnterTerms(t, terms, n - 1), terms, n, EnterTerms(t, terms, n));
    }
  }

  lemma EnterEquationGrows(t: Tables, eq: Equation)
    requires ValidTables(t) && 1 <= |eq.rhs| <= 255
    ensures var e := EnterEquation(t, eq);
      ValidTables(e.tables) && Grows(t, e.tables) && (e.error.None? ==> Known(e.tables, eq))
  {
    var e := EnterPoint(t, eq.lhs);
    if e.error.None? {
      EnterTermsGrow(e.tables, eq.rhs, |eq.rhs|);
      var i := Index(e.tables.points, eq.lhs);
      assert EnterEquation(t, eq).tables.points[i] == eq.lhs;
    }
  }

  lemma {:induction false} CompiledTermsStable(t: Tables, t': Tables, terms: seq<Term>, n: nat)
    requires ValidTables(t) && ValidTables(t') && Grows(t, t')
    requires n <= |terms| && TermsKnown(t, terms, n)
    ensures TermsKnown(t', terms, n) && CompiledTerms(t', terms, n) == CompiledTerms(t, terms, n)
  {
    if n > 0 {
      CompiledTermsStable(t, t', terms, n - 1);
      IndexStable(t.scalars, t'.scalars, terms[n - 1].scalar);
      IndexStable(t.points, t'.points, terms[n - 1].point);
    }
  }

  lemma CompiledStable(t: Tables, t': Tables, eq: Equation)
    requires ValidTables(t) && ValidTables(t') && Grows(t, t') && Known(t, eq)
    ensures Known(t', eq) && Compiled(t', eq) == Compiled(t, eq)
  {
    CompiledTermsStable(t, t', eq.rhs, |eq.rhs|);
    IndexStable(t.points, t'.points, eq.lhs);
  }

  /** Every call of add, failing or not, keeps names and indices mutually inverse and every
      earlier equation compiled from the same names. */
  lemma AddKeepsValid(st: StatementState, lhs: string, rhs: seq<string>)
    requires ValidState(st)
    ensures ValidState(AddCall(st, lhs, rhs).state)
    ensures Grows(st.tables, AddCall(st, lhs, rhs).state.tables)
    ensures st.equations <= AddCall(st, lhs, rhs).state.equations
  {
    var st' := AddCall(st, lhs, rhs).state;
    if st' != st {
      EnterEquationGrows(st.tables, Equation(lhs, Pairs(rhs)));
      forall i | 0 <= i < |st.system|
        ensures Known(st'.tables, st.system[i]) && st.equations[i] == Compiled(st'.tables, st.system[i])
      {
        CompiledStable(st.tables, st'.tables, st.system[i]);
      }
    }
  }

  datatype Call = Call(lhs: string, rhs: seq<string>)

  /** The statement after any sequence of add calls. */
  function AfterCalls(calls: seq<Call>): (st: StatementState)
    ensures ValidState(st)
  {
    if calls == [] then INITIAL
    else
      var st := AfterCalls(calls[..|calls| - 1]);
      var call := calls[|calls| - 1];
      AddKeepsValid(st, call.lhs, call.rhs);
      AddCall(st, call.lhs, call.rhs).state
  }

  // ---------------------------------------------------------------- when add fails

  ghost function Names(names: seq<string>): set<string> {
    set n | n in names
  }

  ghost function ScalarNames(terms: seq<Term>, n: nat): set<string>
    requires n <= |terms|
  {
    if n == 0 then {} else ScalarNames(terms, n - 1) + {terms[n - 1].scalar}
  }

  ghost function PointNames(terms: seq<Term>, n: nat): set<string>
    requires n <= |terms|
  {
    if n == 0 then {} else PointNames(terms, n - 1) + {terms[n - 1].point}
  }

  lemma {:induction false} DistinctSize(names: seq<string>)
    requires Distinct(names)
    ensures |Names(names)| == |names|
  {
    if names != [] {
      var last := |names| - 1;
      DistinctSize(names[..last]);
      assert Names(names) == Names(names[..last]) + {names[last]};
    }
  }

  lemma SubsetSize(a: set<string>, b: set<string>)
    requires a <= b
    ensures |a| <= |b|
  {
    assert |b| == |a| + |b - a| by { assert b == a + (b - a); }
  }

  lemma WithSize(names: seq<string>, name: string)
    requires Distinct(names)
    ensures |Names(names) + {name}| == if name in names then |names| else |names| + 1
    ensures Names(With(names, name)) == Names(names) + {name}
  {
    DistinctSize(names);
    if name in names { assert Names(names) + {name} == Names(names); }
  }

  /** Names were entered without error exactly when both sets of names fit, and are then those sets. */
  ghost predicate Fits(e: Entered, ss: set<string>, ps: set<string>) {
    && (e.error.None? <==> |ss| <= 256 && |ps| <= 256)
    && (e.error.None? ==> Names(e.tables.scalars) == ss && Names(e.tables.points) == ps)
  }

  lemma FitsStep(e: Entered, ss: set<string>, ps: set<string>, term: Term)
    requires ValidTables(e.tables) && Fits(e, ss, ps)
    ensures Fits(if e.error.Some? then e else EnterTerm(e.tables, term), ss + {term.scalar}, ps + {term.point})
  {
    if e.error.Some? {
      SubsetSize(ss, ss + {term.scalar});
      SubsetSize(ps, ps + {term.point});
    } else {
      WithSize(e.tables.scalars, term.scalar);
      WithSize(e.tables.points, term.point);
    }
  }

  lemma {:induction false} EnterTermsFit(t: Tables, terms: seq<Term>, n: nat, ss: set<string>, ps: set<string>)
    requires ValidTables(t) && n <= |terms| && Fits(Entered(t, None), ss, ps)
    ensures Fits(EnterTerms(t, terms, n), ss + ScalarNames(terms, n), ps + PointNames(terms, n))
  {
    if n == 0 {
      assert ss + ScalarNames(terms, 0) == ss && ps + PointNames(terms, 0) == ps;
    } else {
      var term := terms[n - 1];
      var ss', ps' := ss + ScalarNames(terms, n - 1), ps + PointNames(terms, n - 1);
      var e := EnterTerms(t, terms, n - 1);
      assert ValidTables(e.tables) by { EnterTermsGrow(t, terms, n - 1); }
      assert Fits(e, ss', ps') by { EnterTermsFit(t, terms, n - 1, ss, ps); }
      FitsStep(e, ss', ps', term);
      assert ss' + {term.scalar} == ss + ScalarNames(terms, n);
      assert ps' + {term.point} == ps + PointNames(terms, n);
    }
  }

  lemma EnterEquationFits(t: Tables, eq: Equation)
    requires ValidTables(t)
    ensures Fits(EnterEquation(t, eq),
                 Names(t.scalars) + ScalarNames(eq.rhs, |eq.rhs|),
                 Names(t.points) + {eq.lhs} + PointNames(eq.rhs, |eq.rhs|))
  {
    var ss, ps := Names(t.scalars), Names(t.points) + {eq.lhs};
    DistinctSize(t.scalars);
    WithSize(t.points, eq.lhs);
    var e := EnterPoint(t, eq.lhs);
    if e.error.None? {
      EnterTermsFit(e.tables, eq.rhs, |eq.rhs|, ss, ps);
    } else {
      SubsetSize(ps, ps + PointNames(eq.rhs, |eq.rhs|));
    }
  }

  /** A well-formed equation is refused exactly when it would take the statement past 256
      scalar names or 256 point names. */
  lemma AddFailsExactlyWhenFull(st: StatementState, lhs: string, rhs: seq<string>)
    requires ValidState(st) && |st.equations| < 255
    requires 0 < |rhs| <= 510 && |rhs| % 2 == 0
    ensures var terms := Pairs(rhs);
      AddCall(st, lhs, rhs).error.None? <==>
      && |Names(st.tables.scalars) + ScalarNames(terms, |terms|)| <= 256
      && |Names(st.tables.points) + {lhs} + PointNames(terms, |terms|)| <= 256
  {
    EnterEquationFits(st.tables, Equation(lhs, Pairs(rhs)));
  }

  // ---------------------------------------------------------------- statements written out

  predicate WellFormed(call: Call) {
    0 < |call.rhs| <= 510 && |call.rhs| % 2 == 0
  }

  function Evens(rhs: seq<string>): (e: seq<string>)
    ensures |e| == |rhs| / 2 && forall i :: 0 <= i < |e| ==> e[i] == rhs[2 * i]
  {
    seq(|rhs| / 2, i requires 0 <= i < |rhs| / 2 => rhs[2 * i])
  }

  function Odds(rhs: seq<string>): (o: seq<string>)
    ensures |o| == |rhs| / 2 && forall i :: 0 <= i < |o| ==> o[i] == rhs[2 * i + 1]
  {
    seq(|rhs| / 2, i requires 0 <= i < |rhs| / 2 => rhs[2 * i + 1])
  }

  /** The scalar names, or the point names, that calls mention, in order of mention. */
  function ScalarList(calls: seq<Call>): seq<string> {
    if calls == [] then []
    else ScalarList(calls[..|calls| - 1]) + Evens(calls[|calls| - 1].rhs)
  }

  function PointList(calls: seq<Call>): seq<string> {
    if calls == [] then ["G"]
    else PointList(calls[..|calls| - 1]) + [calls[|calls| - 1].lhs] + Odds(calls[|calls| - 1].rhs)
  }

  function EquationOf(call: Call): Equation
    requires WellFormed(call)
  {
    Equation(call.lhs, Pairs(call.rhs))
  }

  predicate AllWellFormed(calls: seq<Call>) {
    forall i :: 0 <= i < |calls| ==> WellFormed(calls[i])
  }

  function Equations(calls: seq<Call>): (eqs: seq<Equation>)
    requires AllWellFormed(calls)
    ensures |eqs| == |calls|
  {
    if calls == [] then []
    else Equations(calls[..|calls| - 1]) + [EquationOf(calls[|calls| - 1])]
  }

  lemma {:induction false} NamesSize(names: seq<string>)
    ensures |Names(names)| <= |names|
  {
    if names != [] {
      var last := |names| - 1;
      NamesSize(names[..last]);
      assert Names(names) == Names(names[..last]) + {names[last]};
    }
  }

  lemma {:induction false} TermNames(rhs: seq<string>, n: nat)
    requires |rhs| % 2 == 0 && n <= |rhs| / 2
    ensures ScalarNames(Pairs(rhs), n) == Names(Evens(rhs)[..n])
    ensures PointNames(Pairs(rhs), n) == Names(Odds(rhs)[..n])
  {
    if n > 0 {
      TermNames(rhs, n - 1);
      NamesSnoc(Evens(rhs), n);
      NamesSnoc(Odds(rhs), n);
    }
  }

  lemma NamesSnoc(names: seq<string>, n: nat)
    requires 1 <= n <= |names|
    ensures Names(names[..n]) == Names(names[..n - 1]) + {names[n - 1]}
  {
    assert names[..n] == names[..n - 1] + [names[n - 1]];
  }

  lemma NamesOfSum(a: seq<string>, b: seq<string>)
    ensures Names(a + b) == Names(a) + Names(b)
  {}

  lemma NamesGrow(names: seq<string>, more: seq<string>)
    ensures |Names(names)| <= |Names(names + more)|
  {
    NamesOfSum(names, more);
    SubsetSize(Names(names), Names(names + more));
  }

  /** Names put at the end of a table one after another, those that it has already left out. */
  function WithAll(names: seq<string>, more: seq<string>): seq<string> {
    if more == [] then names else With(WithAll(names, more[..|more| - 1]), more[|more| - 1])
  }

  lemma {:induction false} WithAllOfSum(names: seq<string>, a: seq<string>, b: seq<string>)
    ensures WithAll(names, a + b) == WithAll(WithAll(names, a), b)
  {
    if b == [] {
      assert a + b == a;
    } else {
      assert (a + b)[..|a + b| - 1] == a + b[..|b| - 1];
      WithAllOfSum(names, a, b[..|b| - 1]);
    }
  }

  lemma WithNext(names: seq<string>, more: seq<string>, n: nat)
    requires 1 <= n <= |more|
    ensures WithAll(names, more[..n]) == With(WithAll(names, more[..n - 1]), more[n - 1])
  {
    assert more[..n][..n - 1] == more[..n - 1];
  }

  lemma NextTerm(t: Tables, term: Term)
    ensures EnterTerm(t, term).error.None? ==>
              EnterTerm(t, term).tables == Tables(With(t.scalars, term.scalar), With(t.points, term.point))
  {}

  lemma {:induction false} TermsInOrder(t: Tables, rhs: seq<string>, n: nat)
    requires |rhs| % 2 == 0 && n <= |rhs| / 2 && EnterTerms(t, Pairs(rhs), n).error.None?
    ensures EnterTerms(t, Pairs(rhs), n).tables.scalars == WithAll(t.scalars, Evens(rhs)[..n])
    ensures EnterTerms(t, Pairs(rhs), n).tables.points == WithAll(t.points, Odds(rhs)[..n])
  {
    if n > 0 {
      TermsInOrder(t, rhs, n - 1);
      WithNext(t.scalars, Evens(rhs), n);
      WithNext(t.points, Odds(rhs), n);
      NextTerm(EnterTerms(t, Pairs(rhs), n - 1).tables, Pairs(rhs)[n - 1]);
    }
  }

  lemma EquationInOrder(t: Tables, call: Call)
    requires WellFormed(call) && EnterEquation(t, EquationOf(call)).error.None?
    ensures EnterEquation(t, EquationOf(call)).tables.scalars == WithAll(t.scalars, Evens(call.rhs))
    ensures EnterEquation(t, EquationOf(call)).tables.points == WithAll(t.points, [call.lhs] + Odds(call.rhs))
  {
    var e, n := EnterPoint(t, call.lhs), |call.rhs| / 2;
    TermsInOrder(e.tables, call.rhs, n);
    assert Evens(call.rhs)[..n] == Evens(call.rhs) && Odds(call.rhs)[..n] == Odds(call.rhs);
    WithAllOfSum(t.points, [call.lhs], Odds(call.rhs));
    assert [call.lhs][..0] == [] && WithAll(t.points, [call.lhs]) == With(t.points, call.lhs);
  }

  /** A statement that mentions at most 256 scalar names and 256 point names is built without
      error, from exactly its equations, and its tables hold exactly the names mentioned, in the
      order in which they are first mentioned, G before all others. */
  lemma {:induction false} BuildsWithoutError(calls: seq<Call>)
    requires |calls| <= 255 && AllWellFormed(calls)
    requires |Names(ScalarList(calls))| <= 256 && |Names(PointList(calls))| <= 256
    ensures AfterCalls(calls).system == Equations(calls)
    ensures Names(AfterCalls(calls).tables.scalars) == Names(ScalarList(calls))
    ensures Names(AfterCalls(calls).tables.points) == Names(PointList(calls))
    ensures AfterCalls(calls).tables == Tables(WithAll([], ScalarList(calls)), WithAll([], PointList(calls)))
  {
    if calls == [] {
      assert WithAll([], ["G"]) == ["G"];
    } else {
      var before, call := calls[..|calls| - 1], calls[|calls| - 1];
      NamesGrow(ScalarList(before), Evens(call.rhs));
      NamesGrow(PointList(before), [call.lhs] + Odds(call.rhs));
      assert PointList(calls) == PointList(before) + ([call.lhs] + Odds(call.rhs));
      BuildsWithoutError(before);
      BuildStep(AfterCalls(before), call, ScalarList(before), PointList(before));
      BuildOrder(AfterCalls(before), call);
      WithAllOfSum([], ScalarList(before), Evens(call.rhs));
      WithAllOfSum([], PointList(before), [call.lhs] + Odds(call.rhs));
    }
  }

  lemma ShortListsBuild(calls: seq<Call>)
    requires |calls| <= 255 && AllWellFormed(calls)
    requires |ScalarList(calls)| <= 256 && |PointList(calls)| <= 256
    ensures AfterCalls(calls).system == Equations(calls)
    ensures Names(AfterCalls(calls).tables.scalars) == Names(ScalarList(calls))
    ensures Names(AfterCalls(calls).tables.points) == Names(PointList(calls))
  {
    NamesSize(ScalarList(calls));
    NamesSize(PointList(calls));
    BuildsWithoutError(calls);
  }

  lemma ListsSnoc(calls: seq<Call>, call: Call)
    requires AllWellFormed(calls) && WellFormed(call)
    ensures AllWellFormed(calls + [call])
    ensures ScalarList(calls + [call]) == ScalarList(calls) + Evens(call.rhs)
    ensures PointList(calls + [call]) == PointList(calls) + [call.lhs] + Odds(call.rhs)
    ensures Equations(calls + [call]) == Equations(calls) + [EquationOf(call)]
  {
    assert (calls + [call])[..|calls|] == calls;
  }

  lemma ListsOfTwo(a: Call, b: Call)
    requires WellFormed(a) && WellFormed(b)
    ensures AllWellFormed([a, b])
    ensures ScalarList([a, b]) == Evens(a.rhs) + Evens(b.rhs)
    ensures PointList([a, b]) == ["G"] + [a.lhs] + Odds(a.rhs) + [b.lhs] + Odds(b.rhs)
    ensures Equations([a, b]) == [EquationOf(a), EquationOf(b)]
  {
    ListsOfNext([], a, [a]);
    ListsOfNext([a], b, [a, b]);
  }

  lemma ListsOfThree(a: Call, b: Call, c: Call)
    requires WellFormed(a) && WellFormed(b) && WellFormed(c)
    ensures AllWellFormed([a, b, c])
    ensures ScalarList([a, b, c]) == Evens(a.rhs) + Evens(b.rhs) + Evens(c.rhs)
    ensures PointList([a, b, c]) == ["G"] + [a.lhs] + Odds(a.rhs) + [b.lhs] + Odds(b.rhs) + [c.lhs] + Odds(c.rhs)
    ensures Equations([a, b, c]) == [EquationOf(a), EquationOf(b), EquationOf(c)]
  {
    ListsOfTwo(a, b);
    ListsOfNext([a, b], c, [a, b, c]);
  }

  /** One more call after a written-out list. */
  lemma ListsOfNext(calls: seq<Call>, call: Call, all: seq<Call>)
    requires AllWellFormed(calls) && WellFormed(call) && all == calls + [call]
    ensures AllWellFormed(all)
    ensures ScalarList(all) == ScalarList(calls) + Evens(call.rhs)
    ensures PointList(all) == PointList(calls) + [call.lhs] + Odds(call.rhs)
    ensures Equations(all) == Equations(calls) + [EquationOf(call)]
  {
    ListsSnoc(calls, call);
  }

  lemma ListsOfSix(a: Call, b: Call, c: Call, d: Call, e: Call, f: Call)
    requires WellFormed(a) && WellFormed(b) && WellFormed(c) && WellFormed(d) && WellFormed(e) && WellFormed(f)
    ensures AllWellFormed([a, b, c, d, e, f])
    ensures ScalarList([a, b, c, d, e, f])
         == ScalarList([a, b, c]) + Evens(d.rhs) + Evens(e.rhs) + Evens(f.rhs)
    ensures PointList([a, b, c, d, e, f])
         == PointList([a, b, c]) + [d.lhs] + Odds(d.rhs) + [e.lhs] + Odds(e.rhs) + [f.lhs] + Odds(f.rhs)
    ensures Equations([a, b, c, d, e, f])
         == Equations([a, b, c]) + [EquationOf(d), EquationOf(e), EquationOf(f)]
  {
    assert AllWellFormed([a, b, c]) by {
      ListsOfThree(a, b, c);
    }
    var four, five, six := [a, b, c, d], [a, b, c, d, e], [a, b, c, d, e, f];
    ListsOfNext([a, b, c], d, four);
    ListsOfNext(four, e, five);
    ListsOfNext(five, f, six);
  }

  lemma BuildStep(st: StatementState, call: Call, ss: seq<string>, ps: seq<string>)
    requires ValidState(st) && WellFormed(call) && |st.equations| < 255
    requires Names(st.tables.scalars) == Names(ss) && Names(st.tables.points) == Names(ps)
    requires |Names(ss + Evens(call.rhs))| <= 256 && |Names(ps + [call.lhs] + Odds(call.rhs))| <= 256
    ensures var st' := AddCall(st, call.lhs, call.rhs).state;
      && st'.system == st.system + [EquationOf(call)]
      && Names(st'.tables.scalars) == Names(ss + Evens(call.rhs))
      && Names(st'.tables.points) == Names(ps + [call.lhs] + Odds(call.rhs))
      && AddCall(st, call.lhs, call.rhs).error.None?
  {
    CallNames(call, ss, ps);
    EnterEquationFits(st.tables, EquationOf(call));
    AddedWhole(st, call);
  }

  /** An equation whose names can be entered is added. */
  lemma AddedWhole(st: StatementState, call: Call)
    requires ValidState(st) && WellFormed(call) && |st.equations| < 255
    requires EnterEquation(st.tables, EquationOf(call)).error.None?
    ensures var added := AddCall(st, call.lhs, call.rhs);
      && added.error.None? && added.state.system == st.system + [EquationOf(call)]
      && added.state.tables == EnterEquation(st.tables, EquationOf(call)).tables
  {
  }

  lemma CallNames(call: Call, ss: seq<string>, ps: seq<string>)
    requires WellFormed(call)
    ensures var terms := Pairs(call.rhs);
      && Names(ss + Evens(call.rhs)) == Names(ss) + ScalarNames(terms, |terms|)
      && Names(ps + [call.lhs] + Odds(call.rhs)) == Names(ps) + {call.lhs} + PointNames(terms, |terms|)
  {
    TermNames(call.rhs, |call.rhs| / 2);
    assert Evens(call.rhs)[..|call.rhs| / 2] == Evens(call.rhs);
    assert Odds(call.rhs)[..|call.rhs| / 2] == Odds(call.rhs);
    NamesOfSum(ss, Evens(call.rhs));
    NamesOfSum(ps + [call.lhs], Odds(call.rhs));
    NamesOfSum(ps, [call.lhs]);
    assert Names([call.lhs]) == {call.lhs};
  }

  lemma BuildOrder(st: StatementState, call: Call)
    requires ValidState(st) && WellFormed(call) && AddCall(st, call.lhs, call.rhs).error.None?
    ensures AddCall(st, call.lhs, call.rhs).state.tables ==
            Tables(WithAll(st.tables.scalars, Evens(call.rhs)), WithAll(st.tables.points, [call.lhs] + Odds(call.rhs)))
  {
    EquationInOrder(st.tables, call);
  }

  // ---------------------------------------------------------------- faithful compilation

  lemma {:induction false} CompiledTermAt(t: Tables, terms: seq<Term>, n: nat, j: nat)
    requires ValidTables(t) && j < n <= |terms| && TermsKnown(t, terms, n)
    ensures CompiledTerms(t, terms, n)[2 * j] == Index(t.scalars, terms[j].scalar)
    ensures CompiledTerms(t, terms, n)[2 * j + 1] == Index(t.points, terms[j].point)
  {
    if j < n - 1 { CompiledTermAt(t, terms, n - 1, j); }
  }

  /** The bytes of an equation name exactly its left-hand point and its terms, in order,
      and never reach past the tables. */
  lemma CompiledFaithfully(t: Tables, eq: Equation)
    requires ValidTables(t) && Known(t, eq)
    ensures InRange(Compiled(t, eq), |t.scalars|, |t.points|)
    ensures t.points[Compiled(t, eq)[0]] == eq.lhs && Compiled(t, eq)[1] == |eq.rhs|
    ensures forall j :: 0 <= j < |eq.rhs| ==>
      eq.rhs[j] == Term(t.scalars[Compiled(t, eq)[2 * j + 2]], t.points[Compiled(t, eq)[2 * j + 3]])
  {
    forall j | 0 <= j < |eq.rhs|
      ensures Compiled(t, eq)[2 * j + 2] == Index(t.scalars, eq.rhs[j].scalar)
      ensures Compiled(t, eq)[2 * j + 3] == Index(t.points, eq.rhs[j].point)
    {
      CompiledTermAt(t, eq.rhs, |eq.rhs|, j);
    }
    var b := Compiled(t, eq);
    forall j: int | 0 <= j < b[1]
      ensures b[2 * j + 2] < |t.scalars| && b[2 * j + 3] < |t.points|
    {
      CompiledTermAt(t, eq.rhs, |eq.rhs|, j);
    }
  }

  lemma CompiledInjective(t: Tables, a: Equation, b: Equation)
    requires ValidTables(t) && Known(t, a) && Known(t, b) && Compiled(t, a) == Compiled(t, b)
    ensures a == b
  {
    CompiledFaithfully(t, a);
    CompiledFaithfully(t, b);
    assert a.rhs == b.rhs;
  }

  /** A description read: how many equations there are, then one after another, each as long as
      its second byte says; and what follows them. */
  function ReadEquations(s: Bytes, n: nat): Option<(seq<Bytes>, Bytes)> {
    if n == 0 then Some(([], s))
    else if |s| < 2 || |s| < 2 + 2 * (s[1] as int) then None
    else
      var size := 2 + 2 * (s[1] as int);
      match ReadEquations(s[size..], n - 1)
      case None => None
      case Some((more, rest)) => Some(([s[..size]] + more, rest))
  }

  function ReadDescription(s: Bytes): Option<(seq<Bytes>, Bytes)> {
    if s == [] then None else ReadEquations(s[1..], s[0])
  }

  lemma EquationRead(eq: Bytes, s: Bytes, more: seq<Bytes>, rest: Bytes, ns: nat, np: nat)
    requires InRange(eq, ns, np) && ReadEquations(s, |more|) == Some((more, rest))
    ensures ReadEquations(eq + s, |more| + 1) == Some(([eq] + more, rest))
  {
    assert (eq + s)[..|eq|] == eq && (eq + s)[|eq|..] == s;
  }

  lemma {:induction false} EquationsRead(eqs: seq<Bytes>, rest: Bytes, ns: nat, np: nat)
    requires AllInRange(eqs, ns, np)
    ensures ReadEquations(Concat(eqs) + rest, |eqs|) == Some((eqs, rest))
  {
    if eqs == [] {
      assert Concat(eqs) + rest == rest;
    } else {
      assert Concat(eqs) + rest == eqs[0] + (Concat(eqs[1..]) + rest);
      EquationsRead(eqs[1..], rest, ns, np);
      EquationRead(eqs[0], Concat(eqs[1..]) + rest, eqs[1..], rest, ns, np);
      assert [eqs[0]] + eqs[1..] == eqs;
    }
  }

  /** A description ends where its own bytes say: whatever follows it, it is read as just its
      equations, in order. */
  lemma DescriptionReads(eqs: seq<Bytes>, rest: Bytes, ns: nat, np: nat)
    requires |eqs| <= 255 && AllInRange(eqs, ns, np)
    ensures ReadDescription(Description(eqs) + rest) == Some((eqs, rest))
  {
    assert (Description(eqs) + rest)[1..] == Concat(eqs) + rest;
    EquationsRead(eqs, rest, ns, np);
  }

  /** So no two systems hash to the same statement. */
  lemma DescriptionDecodable(a: seq<Bytes>, b: seq<Bytes>, x: Bytes, y: Bytes, ns: nat, np: nat)
    requires |a| <= 255 && |b| <= 255 && AllInRange(a, ns, np) && AllInRange(b, ns, np)
    requires Description(a) + x == Description(b) + y
    ensures a == b && x == y
  {
    DescriptionReads(a, x, ns, np);
    DescriptionReads(b, y, ns, np);
  }

  lemma StateInRange(st: StatementState)
    requires ValidState(st)
    ensures AllInRange(st.equations, |st.tables.scalars|, |st.tables.points|)
  {
    forall i | 0 <= i < |st.equations|
      ensures InRange(st.equations[i], |st.tables.scalars|, |st.tables.points|)
    {
      CompiledFaithfully(st.tables, st.system[i]);
    }
  }
}
