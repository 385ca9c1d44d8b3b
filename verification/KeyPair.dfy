/** Credential keys and the algebraic MAC they issue. */
module KeyPairs {
  import opened ByteStrings
  import opened Scalars
  import opened Ristretto
  import opened StatefulHash

  // Positions in the system parameters (src/include/params.h).
  const CRED_G_w := 0
  const CRED_G_wprime := 1
  const CRED_G_x0 := 2
  const CRED_G_x1 := 3
  const CRED_G_y := 4
  const CRED_G_m5 := 14
  const CRED_G_V := 15
  const PARAMS := 17

  /** p[0]*s[0] + ... + p[n-1]*s[n-1], added from the left. */
  function Dot<P>(g: Group<P>, p: seq<P>, s: seq<Scalar>, n: nat): P
    requires 1 <= n <= |p| && n <= |s|
  {
    var t := g.mult(p[n - 1], s[n - 1]);
    if n == 1 then t else g.add(Dot(g, p, s, n - 1), t)
  }

  datatype KeyValue<!P> = KeyValue(w: Scalar, wprime: Scalar, W: P, x0: Scalar, x1: Scalar, y: seq<Scalar>, C_W: P, I: P)

  /** I: the public parameter less one multiple for each secret. */
  function Issuer<P>(g: Group<P>, params: seq<P>, x0: Scalar, x1: Scalar, y: seq<Scalar>, n: nat): P
    requires |params| == PARAMS && n <= |y| && CRED_G_y + n <= PARAMS
  {
    if n == 0 then g.sub(g.sub(params[CRED_G_V], g.mult(params[CRED_G_x0], x0)), g.mult(params[CRED_G_x1], x1))
    else g.sub(Issuer(g, params, x0, x1, y, n - 1), g.mult(params[CRED_G_y + n - 1], y[n - 1]))
  }

  /** The key with the given secrets, of which the first nattr y are published in I. */
  function KeyOf<P>(g: Group<P>, params: seq<P>, w: Scalar, wprime: Scalar, x0: Scalar, x1: Scalar,
      y: seq<Scalar>, nattr: nat): KeyValue<P>
    requires |params| == PARAMS && nattr <= |y| && CRED_G_y + nattr <= PARAMS
  {
    var W := g.mult(params[CRED_G_w], w);
    KeyValue(w, wprime, W, x0, x1, y,
             g.add(W, g.mult(params[CRED_G_wprime], wprime)),
             Issuer(g, params, x0, x1, y, nattr))
  }

  /** The MAC on the first n attributes. */
  function Mac<P>(g: Group<P>, key: KeyValue<P>, t: Scalar, U: P, M: seq<P>, n: nat): P
    requires n <= |M| && n <= |key.y|
  {
    if n == 0 then g.add(key.W, g.mult(U, Plus(key.x0, Times(key.x1, t))))
    else g.add(Mac(g, key, t, U, M, n - 1), g.mult(M[n - 1], key.y[n - 1]))
  }

  class KeyPair<P> {
    const w: Scalar
    const wprime: Scalar
    const W: P
    const x0: Scalar
    const x1: Scalar
    const y: seq<Scalar>
    const C_W: P
    const I: P

    ghost function Value(): KeyValue<P> {
      KeyValue(w, wprime, W, x0, x1, y, C_W, I)
    }

    constructor (g: Group<P>, params: seq<P>, sho: Sho, size: nat, nattr: nat)
      requires |params| == PARAMS && nattr <= size && CRED_G_y + size <= PARAMS
      requires IsHmac(sho.hmac) && sho.input.None?
      modifies sho
      ensures sho.State() == AfterDraws(sho.hmac, old(sho.State()), 4 + size)
      ensures |y| == size
      ensures Value() == KeyOf(g, params, w, wprime, x0, x1, y, if nattr == 0 then size else nattr)
      ensures w == NextScalar(sho.hmac, old(sho.State()))
      ensures wprime == NextScalar(sho.hmac, AfterDraws(sho.hmac, old(sho.State()), 1))
      ensures x0 == NextScalar(sho.hmac, AfterDraws(sho.hmac, old(sho.State()), 2))
      ensures x1 == NextScalar(sho.hmac, AfterDraws(sho.hmac, old(sho.State()), 3))
      ensures forall i :: 0 <= i < size ==> y[i] == NextScalar(sho.hmac, AfterDraws(sho.hmac, old(sho.State()), 4 + i))
    {
      ghost var start := sho.State();
      var published := if nattr == 0 then size else nattr;
      var s0 := sho.GetScalar();
      var s1 := sho.GetScalar();
      var s2 := sho.GetScalar();
      var s3 := sho.GetScalar();
      FourDraws(sho.hmac, start);
      var w, wprime, x0, x1 := s0.value, s1.value, s2.value, s3.value;
      var y := DrawSecrets(sho, size, start);
      var I := PublishSecrets(g, params, x0, x1, y, published);
      this.w, this.wprime, this.x0, this.x1, this.y := w, wprime, x0, x1, y;
      this.W := g.mult(params[CRED_G_w], w);
      this.C_W := g.add(g.mult(params[CRED_G_w], w), g.mult(params[CRED_G_wprime], wprime));
      this.I := I;
    }

    method Prepare(g: Group<P>, elligator: Bytes -> P, sho: Sho, M: seq<P>) returns (t: Scalar, U: P, V: P)
      requires |M| <= |y| && IsHmac(sho.hmac) && sho.input.None?
      modifies sho
      ensures sho.State() == AfterDraws(sho.hmac, old(sho.State()), 2)
      ensures t == NextScalar(sho.hmac, old(sho.State()))
      ensures U == NextPoint(g, elligator, sho.hmac, AfterDraws(sho.hmac, old(sho.State()), 1))
      ensures V == Mac(g, Value(), t, U, M, |M|)
    {
      ghost var start := sho.State();
      var scalar := sho.GetScalar();
      assert AfterDraws(sho.hmac, start, 1) == Squeezed(sho.hmac, start, 64);
      var point := sho.GetPoint(g, elligator);
      t, U := scalar.value, point.value;
      V := Authenticate(g, t, U, M);
    }

    method Authenticate(g: Group<P>, t: Scalar, U: P, M: seq<P>) returns (V: P)
      requires |M| <= |y|
      ensures V == Mac(g, Value(), t, U, M, |M|)
    {
      V := g.add(W, g.mult(U, Plus(x0, Times(x1, t))));
      for i := 0 to |M|
        invariant V == Mac(g, Value(), t, U, M, i)
      {
        V := g.add(V, g.mult(M[i], y[i]));
      }
    }
  }

  lemma FourDraws(h: Hmac, s: ShoState)
    ensures AfterDraws(h, s, 1) == Squeezed(h, s, 64)
    ensures AfterDraws(h, s, 2) == Squeezed(h, AfterDraws(h, s, 1), 64)
    ensures AfterDraws(h, s, 3) == Squeezed(h, AfterDraws(h, s, 2), 64)
    ensures AfterDraws(h, s, 4) == Squeezed(h, AfterDraws(h, s, 3), 64)
  {}

  method DrawSecrets(sho: Sho, size: nat, ghost start: ShoState) returns (y: seq<Scalar>)
    requires IsHmac(sho.hmac) && sho.input.None? && sho.State() == AfterDraws(sho.hmac, start, 4)
    modifies sho
    ensures |y| == size && sho.State() == AfterDraws(sho.hmac, start, 4 + size)
    ensures forall i :: 0 <= i < size ==> y[i] == NextScalar(sho.hmac, AfterDraws(sho.hmac, start, 4 + i))
  {
    y := [];
    for i := 0 to size
      invariant |y| == i && sho.input.None?
      invariant sho.State() == AfterDraws(sho.hmac, start, 4 + i)
      invariant forall k :: 0 <= k < i ==> y[k] == NextScalar(sho.hmac, AfterDraws(sho.hmac, start, 4 + k))
    {
      var next := sho.GetScalar();
      y := y + [next.value];
    }
  }

  method PublishSecrets<P>(g: Group<P>, params: seq<P>, x0: Scalar, x1: Scalar, y: seq<Scalar>, nattr: nat) returns (I: P)
    requires |params| == PARAMS && nattr <= |y| && CRED_G_y + nattr <= PARAMS
    ensures I == Issuer(g, params, x0, x1, y, nattr)
  {
    I := g.sub(g.sub(params[CRED_G_V], g.mult(params[CRED_G_x0], x0)), g.mult(params[CRED_G_x1], x1));
    for i := 0 to nattr
      invariant I == Issuer(g, params, x0, x1, y, i)
    {
      I := g.sub(I, g.mult(params[CRED_G_y + i], y[i]));
    }
  }

  // ---------------------------------------------------------------- what the key publishes

  /** For any number of published attributes: G_V - I is the sum that the issuing
      statements claim it is. */
  lemma {:induction false} IssuerEquation<P(!new)>(g: Group<P>, params: seq<P>, x0: Scalar, x1: Scalar, y: seq<Scalar>, n: nat)
    requires IsGroup(g) && |params| == PARAMS && n <= |y| && CRED_G_y + n <= PARAMS
    ensures g.sub(params[CRED_G_V], Issuer(g, params, x0, x1, y, n))
         == Dot(g, params[CRED_G_x0..], [x0, x1] + y, n + 2)
  {
    IssuerSum(g, params, x0, x1, y, n);
    assert SubUndoesAdd(g, Dot(g, params[CRED_G_x0..], [x0, x1] + y, n + 2), Issuer(g, params, x0, x1, y, n));
  }

  lemma {:induction false} IssuerSum<P(!new)>(g: Group<P>, params: seq<P>, x0: Scalar, x1: Scalar, y: seq<Scalar>, n: nat)
    requires IsGroup(g) && |params| == PARAMS && n <= |y| && CRED_G_y + n <= PARAMS
    ensures g.add(Dot(g, params[CRED_G_x0..], [x0, x1] + y, n + 2), Issuer(g, params, x0, x1, y, n)) == params[CRED_G_V]
  {
    var p, s := params[CRED_G_x0..], [x0, x1] + y;
    if n == 0 {
      var a, b := g.mult(p[0], x0), g.mult(p[1], x1);
      assert Dot(g, p, s, 1) == a;
      SubFromSum(g, a, g.sub(params[CRED_G_V], a), b);
      assert SubUndoesAdd(g, params[CRED_G_V], a);
      assert AddCommutes(g, a, g.sub(params[CRED_G_V], a));
    } else {
      IssuerSum(g, params, x0, x1, y, n - 1);
      SubFromSum(g, Dot(g, p, s, n + 1), Issuer(g, params, x0, x1, y, n - 1), g.mult(p[n + 1], s[n + 1]));
    }
  }

  /** (d + b) + (i - b) == d + i */
  lemma SubFromSum<P(!new)>(g: Group<P>, d: P, i: P, b: P)
    requires IsGroup(g)
    ensures g.add(g.add(d, b), g.sub(i, b)) == g.add(d, i)
  {
    assert SubUndoesAdd(g, i, b);
    assert AddCommutes(g, b, g.sub(i, b));
    assert AddAssociates(g, d, b, g.sub(i, b));
  }

  /** The MAC as the sum that the issuing statements claim it is. */
  lemma {:induction false} MacEquation<P(!new)>(g: Group<P>, G_w: P, key: KeyValue<P>, t: Scalar, U: P, M: seq<P>, n: nat)
    requires IsGroup(g) && n <= |M| && n <= |key.y| && key.W == g.mult(G_w, key.w)
    ensures Mac(g, key, t, U, M, n) == Dot(g, [G_w, U, g.mult(U, t)] + M, [key.w, key.x0, key.x1] + key.y, n + 3)
  {
    var p, s := [G_w, U, g.mult(U, t)] + M, [key.w, key.x0, key.x1] + key.y;
    if n == 0 {
      assert MultPlus(g, U, key.x0, Times(key.x1, t));
      TimesCommutes(key.x1, t);
      assert MultTimes(g, U, t, key.x1);
      assert AddAssociates(g, key.W, g.mult(U, key.x0), g.mult(g.mult(U, t), key.x1));
      assert Dot(g, p, s, 1) == key.W;
      assert Dot(g, p, s, 2) == g.add(key.W, g.mult(U, key.x0));
    } else {
      MacEquation(g, G_w, key, t, U, M, n - 1);
    }
  }
}
