/** Powers, primes, Fermat's little theorem and the uniqueness half of the Chinese
    remainder theorem: what RSA rests on. */
module NumberTheory {
  import opened Modular

  function Pow(b: nat, e: nat): (r: nat)
    ensures b >= 1 ==> r >= 1
  {
    if e == 0 then 1 else b * Pow(b, e - 1)
  }

  predicate IsPrime(p: nat) {
    p >= 2 && forall k :: 2 <= k < p ==> p % k != 0
  }

  // ---------------------------------------------------------------- powers

  lemma {:induction false} PowAdd(b: nat, e: nat, f: nat)
    ensures Pow(b, e + f) == Pow(b, e) * Pow(b, f)
  {
    if e > 0 {
      PowAdd(b, e - 1, f);
      MulAssociates(b, Pow(b, e - 1), Pow(b, f));
    }
  }

  lemma {:induction false} PowMul(b: nat, e: nat, f: nat)
    ensures Pow(b, e * f) == Pow(Pow(b, e), f)
  {
    if f == 0 {
      assert e * f == 0;
    } else {
      PowMul(b, e, f - 1);
      assert e * f == e + e * (f - 1);
      assert e * (f - 1) >= 0;
      PowAdd(b, e, e * (f - 1));
    }
  }

  lemma {:induction false} PowMod(b: nat, e: nat, m: nat)
    requires m > 0
    ensures Pow(b % m, e) % m == Pow(b, e) % m
  {
    if e > 0 {
      PowMod(b, e - 1, m);
      var x, y := Pow(b % m, e - 1), Pow(b, e - 1);
      ModMul(b, x, m);
      ModMul(x, b, m);
      ModMul(y, b, m);
      MulCommutes(b, x);
      MulCommutes(b, y);
    }
  }

  // ---------------------------------------------------------------- Euclid's lemma

  lemma Multiple(k: int, m: int)
    requires m > 0
    ensures (k * m) % m == 0
  {
    ModShift(0, k, m);
  }

  /** A prime that divides a*b, with 0 < a < p, divides b. */
  lemma {:induction false} EuclidSmall(p: nat, a: nat, b: nat)
    requires IsPrime(p) && 0 < a < p && (a * b) % p == 0
    ensures b % p == 0
    decreases a
  {
    if a > 1 {
      var k, r := p / a, p % a;
      DivMod(p, a);
      assert r != 0;
      var q := (a * b) / p;
      DivMod(a * b, p);
      assert r * b == (b - k * q) * p by {
        assert r * b == (p - k * a) * b == p * b - k * (a * b) == p * b - k * (q * p);
      }
      Multiple(b - k * q, p);
      EuclidSmall(p, r, b);
    }
  }

  lemma Euclid(p: nat, a: nat, b: nat)
    requires IsPrime(p) && (a * b) % p == 0
    ensures a % p == 0 || b % p == 0
  {
    ModMul(a, b, p);
    if a % p != 0 { EuclidSmall(p, a % p, b); }
  }

  // ---------------------------------------------------------------- binomial coefficients

  function Choose(n: nat, k: nat): nat {
    if k == 0 then 1 else if n == 0 then 0 else Choose(n - 1, k - 1) + Choose(n - 1, k)
  }

  lemma {:induction false} ChooseBeyond(n: nat, k: nat)
    requires k > n
    ensures Choose(n, k) == 0
  {
    if n > 0 { ChooseBeyond(n - 1, k - 1); ChooseBeyond(n - 1, k); }
  }

  lemma {:induction false} ChooseAll(n: nat)
    ensures Choose(n, n) == 1
  {
    if n > 0 { ChooseAll(n - 1); ChooseBeyond(n - 1, n); }
  }

  lemma AbsorptionStep(n: int, k: int, a: int, b: int, c: int, d: int)
    requires a == c + d && k * b == (n - 1) * d && (k - 1) * a == (n - 1) * c
    ensures k * (a + b) == n * a
  {
    assert k * (a + b) == a + (k - 1) * a + k * b;
    assert (n - 1) * c + (n - 1) * d == (n - 1) * a;
    assert n * a == a + (n - 1) * a;
  }

  lemma {:induction false} Absorption(n: nat, k: nat)
    requires n >= 1 && k >= 1
    ensures k * Choose(n, k) == n * Choose(n - 1, k - 1)
  {
    if n == 1 {
      if k > 1 { ChooseBeyond(1, k); ChooseBeyond(0, k - 1); }
    } else {
      var a, b, d := Choose(n - 1, k - 1), Choose(n - 1, k), Choose(n - 2, k - 1);
      Absorption(n - 1, k);
      if k == 1 {
        AbsorptionStep(n, 1, a, b, 0, d);
      } else {
        Absorption(n - 1, k - 1);
        AbsorptionStep(n, k, a, b, Choose(n - 2, k - 2), d);
      }
    }
  }

  lemma PrimeDividesChoose(p: nat, k: nat)
    requires IsPrime(p) && 0 < k < p
    ensures Choose(p, k) % p == 0
  {
    Absorption(p, k);
    var c := Choose(p - 1, k - 1);
    assert k * Choose(p, k) == c * p;
    Multiple(c, p);
    EuclidSmall(p, k, Choose(p, k));
  }

  // ---------------------------------------------------------------- binomial theorem

  function Expansion(x: nat, n: nat, k: nat): nat {
    Choose(n, k) * Pow(x, k) + if k == 0 then 0 else Expansion(x, n, k - 1)
  }

  lemma ExpansionArithmetic(x: int, b: int, c: int, P: int, E: int, E': int)
    requires (x + 1) * E == E' + b * P
    ensures (x + 1) * (c * P + E) == (b + c) * P + E' + c * (x * P)
  {
    assert (x + 1) * (c * P + E) == (x + 1) * (c * P) + (x + 1) * E;
    assert (x + 1) * (c * P) == c * (x * P) + c * P;
    assert (b + c) * P == b * P + c * P;
  }

  lemma {:induction false} ExpansionStep(x: nat, n: nat, k: nat)
    ensures (x + 1) * Expansion(x, n, k) == Expansion(x, n + 1, k) + Choose(n, k) * Pow(x, k + 1)
  {
    if k > 0 {
      ExpansionStep(x, n, k - 1);
      ExpansionArithmetic(x, Choose(n, k - 1), Choose(n, k), Pow(x, k), Expansion(x, n, k - 1), Expansion(x, n + 1, k - 1));
    }
  }

  lemma {:induction false} Binomial(x: nat, n: nat)
    ensures Pow(x + 1, n) == Expansion(x, n, n)
  {
    if n > 0 {
      Binomial(x, n - 1);
      ExpansionStep(x, n - 1, n - 1);
      ChooseAll(n - 1);
      ChooseAll(n);
    }
  }

  lemma {:induction false} ExpansionModPrime(x: nat, p: nat, k: nat)
    requires IsPrime(p) && k < p
    ensures Expansion(x, p, k) % p == 1
  {
    if k == 0 {
      ModSmall(1, p);
    } else {
      ExpansionModPrime(x, p, k - 1);
      PrimeDividesChoose(p, k);
      MultipleAdds(Choose(p, k), Pow(x, k), Expansion(x, p, k - 1), p);
    }
  }

  /** Fermat's little theorem. */
  lemma {:induction false} Fermat(x: nat, p: nat)
    requires IsPrime(p)
    ensures Pow(x, p) % p == x % p
  {
    if x == 0 {
      assert Pow(0, p) == 0;
    } else {
      Fermat(x - 1, p);
      Binomial(x - 1, p);
      ChooseAll(p);
      var P, E := Pow(x - 1, p), Expansion(x - 1, p, p - 1);
      assert Pow(x, p) == P + E;
      ExpansionModPrime(x - 1, p, p - 1);
      ModAdd(P, E, p);
      ModAdd(E, (x - 1) % p, p);
      ModAdd(x - 1, 1, p);
    }
  }

  // ---------------------------------------------------------------- exponents modulo p - 1

  /** x^(1 + k(p-1)) == x modulo p */
  lemma {:induction false} FermatRepeated(x: nat, p: nat, k: nat)
    requires IsPrime(p)
    ensures k * (p - 1) >= 0 && Pow(x, 1 + k * (p - 1)) % p == x % p
  {
    if k == 0 {
      assert Pow(x, 1) == x * Pow(x, 0) == x;
    } else {
      FermatRepeated(x, p, k - 1);
      var e := (k - 1) * (p - 1);
      assert k * (p - 1) == e + (p - 1);
      PowAdd(x, 1 + e, p - 1);
      var A, B := Pow(x, 1 + e), Pow(x, p - 1);
      ModMul(A, B, p);
      ModMul(x, B, p);
      assert x * B == Pow(x, p);
      Fermat(x, p);
    }
  }

  lemma SameFactor(a: nat, x: nat, y: nat, p: nat)
    requires p > 0 && x % p == y % p
    ensures (a * x) % p == (a * y) % p
  {
    ModMul(x, a, p);
    ModMul(y, a, p);
    assert a * x == x * a && a * y == y * a;
  }

  /** Positive exponents that agree modulo p - 1 give the same power modulo p. */
  lemma ExponentsModPrime(x: nat, p: nat, e: nat, f: nat)
    requires IsPrime(p) && 1 <= f <= e && (e - f) % (p - 1) == 0
    ensures Pow(x, e) % p == Pow(x, f) % p
  {
    var k := (e - f) / (p - 1);
    DivMod(e - f, p - 1);
    FermatRepeated(x, p, k);
    PowAdd(x, f - 1, 1 + k * (p - 1));
    SameFactor(Pow(x, f - 1), Pow(x, 1 + k * (p - 1)), x, p);
    assert Pow(x, f) == x * Pow(x, f - 1);
    assert Pow(x, f - 1) * x == x * Pow(x, f - 1);
  }

  // ---------------------------------------------------------------- two primes

  lemma DistinctPrimes(p: nat, q: nat)
    requires IsPrime(p) && IsPrime(q) && p != q
    ensures q % p != 0
  {
    if q % p == 0 && p < q {
      assert false;
    } else if q < p {
      ModSmall(q, p);
    }
  }

  lemma ChineseZero(d: nat, p: nat, q: nat)
    requires IsPrime(p) && IsPrime(q) && p != q && d % p == 0 && d % q == 0
    ensures d % (p * q) == 0
  {
    var k := d / q;
    DivMod(d, q);
    DistinctPrimes(p, q);
    assert (q * k) % p == 0 by { assert q * k == k * q; }
    Euclid(p, q, k);
    DivMod(k, p);
    var j := k / p;
    assert d == j * (p * q) by { assert k * q == (j * p) * q == j * (p * q); }
    Multiple(j, p * q);
  }

  /** Numbers that agree modulo two distinct primes agree modulo their product. */
  lemma Chinese(x: nat, y: nat, p: nat, q: nat)
    requires IsPrime(p) && IsPrime(q) && p != q && x % p == y % p && x % q == y % q
    ensures x % (p * q) == y % (p * q)
  {
    if x < y { ChineseDifference(y, x, p, q); } else { ChineseDifference(x, y, p, q); }
  }

  lemma ChineseDifference(x: nat, y: nat, p: nat, q: nat)
    requires IsPrime(p) && IsPrime(q) && p != q && x % p == y % p && x % q == y % q && x >= y
    ensures x % (p * q) == y % (p * q)
  {
    ModEqual(x, y, p);
    ModEqual(x, y, q);
    ChineseZero(x - y, p, q);
    assert p * q > 0;
    ModEqual(x, y, p * q);
  }
}
