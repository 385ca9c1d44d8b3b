/** The ristretto255 group behind RistrettoPoint objects: a commutative group on which
    the scalars modulo ELL act, with an injective 32-byte encoding. The kernel functions
    are left open; every theorem holds for any group with these laws. A law is a named
    predicate, so that it is used exactly where a proof names it. */
module Ristretto {
  import opened ByteStrings
  import opened Modular
  import opened Scalars

  datatype Group<!P> = Group(
    base: P,
    add: (P, P) -> P,
    sub: (P, P) -> P,
    neg: P -> P,
    mult: (P, Scalar) -> P,
    bytes: P -> Bytes)

  ghost predicate AddCommutes<P>(g: Group<P>, p: P, q: P) {
    g.add(p, q) == g.add(q, p)
  }

  ghost predicate AddAssociates<P>(g: Group<P>, p: P, q: P, r: P) {
    g.add(g.add(p, q), r) == g.add(p, g.add(q, r))
  }

  ghost predicate SubUndoesAdd<P>(g: Group<P>, p: P, q: P) {
    g.sub(g.add(p, q), q) == p && g.add(g.sub(p, q), q) == p
  }

  ghost predicate NegIsSub<P>(g: Group<P>, p: P, q: P) {
    g.add(p, g.neg(q)) == g.sub(p, q)
  }

  ghost predicate MultPlus<P>(g: Group<P>, p: P, a: Scalar, b: Scalar) {
    g.mult(p, Plus(a, b)) == g.add(g.mult(p, a), g.mult(p, b))
  }

  ghost predicate MultTimes<P>(g: Group<P>, p: P, a: Scalar, b: Scalar) {
    g.mult(p, Times(a, b)) == g.mult(g.mult(p, a), b)
  }

  ghost predicate MultAdd<P>(g: Group<P>, p: P, q: P, a: Scalar) {
    g.mult(g.add(p, q), a) == g.add(g.mult(p, a), g.mult(q, a))
  }

  ghost predicate MultOne<P>(g: Group<P>, p: P) {
    g.mult(p, 1) == p
  }

  ghost predicate BytesInjective<P>(g: Group<P>, p: P, q: P) {
    |g.bytes(p)| == 32 && (g.bytes(p) == g.bytes(q) ==> p == q)
  }

  ghost predicate IsGroup<P(!new)>(g: Group<P>) {
    && (forall p, q :: AddCommutes(g, p, q))
    && (forall p, q, r :: AddAssociates(g, p, q, r))
    && (forall p, q :: SubUndoesAdd(g, p, q))
    && (forall p, q :: NegIsSub(g, p, q))
    && (forall p, a, b :: MultPlus(g, p, a, b))
    && (forall p, a, b :: MultTimes(g, p, a, b))
    && (forall p, q, a :: MultAdd(g, p, q, a))
    && (forall p :: MultOne(g, p))
    && (forall p, q :: BytesInjective(g, p, q))
  }

  lemma PointBytesTell<P(!new)>(g: Group<P>, p: P)
    requires IsGroup(g)
    ensures |g.bytes(p)| == 32
    ensures forall q :: g.bytes(q) == g.bytes(p) <==> q == p
  {
    assert BytesInjective(g, p, p);
    forall q
      ensures g.bytes(q) == g.bytes(p) <==> q == p
    {
      assert BytesInjective(g, q, p);
    }
  }

  /** (p + q) + (r + s) == (p + r) + (q + s) */
  lemma Interchange<P(!new)>(g: Group<P>, p: P, q: P, r: P, s: P)
    requires IsGroup(g)
    ensures g.add(g.add(p, q), g.add(r, s)) == g.add(g.add(p, r), g.add(q, s))
  {
    assert AddAssociates(g, p, q, g.add(r, s));
    assert AddAssociates(g, q, r, s);
    assert AddCommutes(g, q, r);
    assert AddAssociates(g, r, q, s);
    assert AddAssociates(g, p, r, g.add(q, s));
  }

  /** Scalar subtraction acts as point subtraction. */
  lemma MultMinus<P(!new)>(g: Group<P>, p: P, a: Scalar, b: Scalar)
    requires IsGroup(g)
    ensures g.mult(p, Minus(a, b)) == g.sub(g.mult(p, a), g.mult(p, b))
  {
    MinusUndoesPlus(a, b);
    assert MultPlus(g, p, Minus(a, b), b);
    assert SubUndoesAdd(g, g.mult(p, Minus(a, b)), g.mult(p, b));
  }

  /** Adding (-p)*a takes p*a away again. */
  lemma NegMult<P(!new)>(g: Group<P>, x: P, p: P, a: Scalar)
    requires IsGroup(g)
    ensures g.add(x, g.mult(g.neg(p), a)) == g.sub(x, g.mult(p, a))
  {
    var z := g.add(g.neg(p), p);
    var e := g.mult(z, a);
    assert NegIsSub(g, z, p) && SubUndoesAdd(g, z, p);
    assert AddAssociates(g, z, g.neg(p), p);
    assert g.add(z, z) == z;
    assert MultAdd(g, z, z, a);
    assert SubUndoesAdd(g, x, e);
    assert AddAssociates(g, g.sub(x, e), e, e);
    assert g.add(x, e) == x;
    assert MultAdd(g, g.neg(p), p, a);
    var n, m := g.mult(g.neg(p), a), g.mult(p, a);
    assert AddAssociates(g, x, n, m);
    assert SubUndoesAdd(g, g.add(x, n), m);
  }

  /** The laws hold together: the scalars themselves, under their own arithmetic. */
  function ScalarGroup(): Group<Scalar> {
    Group(1, (p, q) => Plus(p, q), (p, q) => Minus(p, q), p => Negate(p),
          (p, a) => Times(p, a), p => ToBytes(p))
  }

  lemma ScalarGroupIsGroup()
    ensures IsGroup(ScalarGroup())
  {
    var g := ScalarGroup();
    forall p, q ensures AddCommutes(g, p, q) { PlusCommutes(p, q); }
    forall p, q, r ensures AddAssociates(g, p, q, r) { PlusAssociates(p, q, r); }
    forall p, q ensures SubUndoesAdd(g, p, q) { MinusUndoesPlus(p, q); }
    forall p, q ensures NegIsSub(g, p, q) { NegateIsMinus(p, q); }
    forall p, a, b ensures MultPlus(g, p, a, b) { Distributes(p, a, b); }
    forall p, a, b ensures MultTimes(g, p, a, b) { TimesAssociates(p, a, b); }
    forall p, q, a ensures MultAdd(g, p, q, a) {
      TimesCommutes(Plus(p, q), a); Distributes(a, p, q); TimesCommutes(p, a); TimesCommutes(q, a);
    }
    forall p: Scalar ensures MultOne(g, p) { ModSmall(p, ELL); }
    forall p, q ensures BytesInjective(g, p, q) { BytesRoundTrip(p); BytesRoundTrip(q); }
  }
}
