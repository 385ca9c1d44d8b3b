/** The statements whose honest proofs are turned away: no scalars, or all 256. */
module StatementLimits {
  import opened ByteStrings
  import opened Wrappers
  import opened Scalars
  import opened Ristretto
  import opened StatefulHash
  import opened Statements
  import opened StatementProofs

  /** Scalar names that their lengths tell apart. */
  function Name(i: nat): string {
    seq(i + 1, _ => 's')
  }

  /** Z as the sum of n multiples of G, by the scalars from the first on. */
  function WideCall(first: nat, n: nat): Call {
    Call("Z", seq(2 * n, k requires 0 <= k < 2 * n => if k % 2 == 0 then Name(first + k / 2) else "G"))
  }

  /** The most terms a call can have, and one more. */
  function FullCalls(): seq<Call> {
    [WideCall(0, 255), WideCall(255, 1)]
  }

  /** Zero for every scalar, and what that makes of Z. */
  ghost function ZeroScalars(names: seq<string>): map<string, Scalar> {
    map n | n in names :: 0
  }

  function ZeroPoint<P>(g: Group<P>): map<string, P> {
    map["Z" := g.mult(g.base, 0)]
  }

  function NamesFrom(first: nat, n: nat): (names: seq<string>)
    ensures |names| == n && forall i :: 0 <= i < n ==> names[i] == Name(first + i)
  {
    seq(n, i requires 0 <= i < n => Name(first + i))
  }

  function Bases(n: nat): (names: seq<string>)
    ensures |names| == n && forall i :: 0 <= i < n ==> names[i] == "G"
  {
    seq(n, _ => "G")
  }

  lemma WideNames(first: nat, n: nat)
    requires 1 <= n <= 255
    ensures WellFormed(WideCall(first, n))
    ensures Evens(WideCall(first, n).rhs) == NamesFrom(first, n)
    ensures Odds(WideCall(first, n).rhs) == Bases(n)
  {}

  lemma FullLists()
    ensures AllWellFormed(FullCalls())
    ensures Equations(FullCalls()) == [EquationOf(WideCall(0, 255)), EquationOf(WideCall(255, 1))]
    ensures ScalarList(FullCalls()) == NamesFrom(0, 255) + NamesFrom(255, 1) == NamesFrom(0, 256)
    ensures PointList(FullCalls()) == ["G", "Z"] + Bases(255) + ["Z"] + Bases(1)
  {
    WideNames(0, 255);
    WideNames(255, 1);
    ListsOfTwo(WideCall(0, 255), WideCall(255, 1));
    assert ["G"] + ["Z"] == ["G", "Z"];
  }

  lemma NamesFromSize(n: nat)
    ensures |Names(NamesFrom(0, n))| == n
  {
    var names := NamesFrom(0, n);
    forall i, j | 0 <= i < j < n ensures names[i] != names[j] {
      assert |names[i]| == i + 1 && |names[j]| == j + 1;
    }
    DistinctSize(names);
  }

  lemma FullPoints(n: nat)
    ensures Names(["G", "Z"] + Bases(n) + ["Z"] + Bases(1)) == {"G", "Z"}
  {
    var names := ["G", "Z"] + Bases(n) + ["Z"] + Bases(1);
    assert names[0] == "G" && names[1] == "Z";
  }

  lemma {:induction false} ZeroSum<P(!new)>(g: Group<P>, terms: seq<Term>, n: nat, sv: map<string, Scalar>, pv: map<string, P>)
    requires IsGroup(g) && 1 <= n <= |terms|
    requires forall i :: 0 <= i < |terms| ==> terms[i].scalar in sv && sv[terms[i].scalar] == 0
    requires forall i :: 0 <= i < |terms| ==> terms[i].point in pv && pv[terms[i].point] == g.base
    ensures NamedSum(g, terms, n, sv, pv) == g.mult(g.base, 0)
  {
    assert MultPlus(g, g.base, 0, 0);
    assert Plus(0, 0) == 0;
    if n > 1 {
      ZeroSum(g, terms, n - 1, sv, pv);
    }
  }

  lemma WideTerms(first: nat, n: nat)
    requires 1 <= n <= 255 && WellFormed(WideCall(first, n))
    ensures var eq := EquationOf(WideCall(first, n));
      eq.lhs == "Z" && |eq.rhs| == n && forall i :: 0 <= i < n ==> eq.rhs[i] == Term(Name(first + i), "G")
  {}

  lemma WideHolds<P(!new)>(g: Group<P>, first: nat, n: nat, sv: map<string, Scalar>, pv: map<string, P>)
    requires IsGroup(g) && 1 <= n <= 255 && WellFormed(WideCall(first, n))
    requires forall i :: first <= i < first + n ==> Name(i) in sv && sv[Name(i)] == 0
    requires "G" in pv && pv["G"] == g.base && "Z" in pv && pv["Z"] == g.mult(g.base, 0)
    ensures Holds(g, EquationOf(WideCall(first, n)), sv, pv)
  {
    WideTerms(first, n);
    ZeroSum(g, EquationOf(WideCall(first, n)).rhs, n, sv, pv);
  }

  lemma FullHolds<P(!new)>(g: Group<P>)
    requires IsGroup(g)
    ensures AllWellFormed(FullCalls())
    ensures AllHold(g, Equations(FullCalls()), ZeroScalars(NamesFrom(0, 256)), ZeroPoint(g)["G" := g.base])
  {
    FullLists();
    var names := NamesFrom(0, 256);
    var sv, pv := ZeroScalars(names), ZeroPoint(g)["G" := g.base];
    forall i | 0 <= i < 256 ensures Name(i) in sv && sv[Name(i)] == 0 {
      assert names[i] == Name(i);
    }
    WideNames(0, 255);
    WideNames(255, 1);
    WideHolds(g, 0, 255, sv, pv);
    WideHolds(g, 255, 1, sv, pv);
  }

  lemma FullBuilt()
    ensures AllWellFormed(FullCalls()) && AfterCalls(FullCalls()).system == Equations(FullCalls())
    ensures |AfterCalls(FullCalls()).system| == 2 && |AfterCalls(FullCalls()).tables.scalars| == 256
    ensures Names(AfterCalls(FullCalls()).tables.scalars) == Names(NamesFrom(0, 256))
    ensures Names(AfterCalls(FullCalls()).tables.points) == {"G", "Z"}
  {
    FullLists();
    NamesFromSize(256);
    FullPoints(255);
    BuildsWithoutError(FullCalls());
    DistinctSize(AfterCalls(FullCalls()).tables.scalars);
  }

  lemma FullMatches<P>(g: Group<P>)
    ensures Match(AfterCalls(FullCalls()).tables.scalars, ZeroScalars(NamesFrom(0, 256)))
    ensures Match(AfterCalls(FullCalls()).tables.points, ZeroPoint(g)["G" := g.base])
  {
    FullBuilt();
    assert ZeroScalars(NamesFrom(0, 256)).Keys == Names(NamesFrom(0, 256));
  }

  /** Two calls of add make a statement with 256 scalars: it has a satisfying assignment, the
      prover returns a proof, and the verifier cannot read it. */
  lemma FullStatementRejected<P(!new)>(g: Group<P>, h: Hmac, message: Bytes, random: Bytes)
    requires IsGroup(g) && IsHmac(h)
    ensures var st, sv := AfterCalls(FullCalls()), ZeroScalars(NamesFrom(0, 256));
      && |st.system| == 2 && |st.tables.scalars| == 256
      && AllHold(g, st.system, sv, ZeroPoint(g)["G" := g.base])
      && var blob := ProofBlob(g, h, st, sv, ZeroPoint(g), message, random);
      blob.Ok? && Verdict(g, h, st, blob.value, ZeroPoint(g), message) == Err(BadProof)
  {
    var calls, sv := FullCalls(), ZeroScalars(NamesFrom(0, 256));
    FullBuilt();
    FullHolds(g);
    FullMatches(g);
    EveryStatementIsComplete(g, h, calls, sv, ZeroPoint(g), message, random);
  }

  /** So is the proof of a statement to which nothing was added. */
  lemma EmptyStatementRejected<P(!new)>(g: Group<P>, h: Hmac, message: Bytes, random: Bytes)
    requires IsGroup(g) && IsHmac(h)
    ensures var blob := ProofBlob(g, h, AfterCalls([]), map[], map[], message, random);
      blob.Ok? && Verdict(g, h, AfterCalls([]), blob.value, map[], message) == Err(BadProof)
  {
    var pointArgs: map<string, P> := map[];
    assert pointArgs["G" := g.base].Keys == Names(["G"]);
    EveryStatementIsComplete(g, h, [], map[], pointArgs, message, random);
  }
}
