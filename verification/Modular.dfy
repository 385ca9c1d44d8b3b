/** Congruence modulo a positive number. */
module Modular {

  lemma DivMod(x: int, m: int)
    requires m > 0
    ensures x == (x / m) * m + x % m && 0 <= x % m < m
  {}

  lemma {:induction false} MulAtLeast(d: nat, m: nat)
    requires d >= 1
    ensures d * m >= m
  {
    if d > 1 {
      MulAtLeast(d - 1, m);
      assert d * m == (d - 1) * m + m;
    }
  }

  lemma MulLess(a: nat, b: nat, m: nat)
    requires a < b
    ensures a * m + m <= b * m
  {
    MulAtLeast(b - a, m);
    assert b * m == a * m + (b - a) * m;
  }

  lemma MulAssociates(a: int, b: int, c: int)
    ensures a * (b * c) == (a * b) * c
  {}

  lemma MulCommutes(a: int, b: int)
    ensures a * b == b * a
  {}

  lemma MulDistributes(a: int, b: int, c: int)
    ensures (b + c) * a == a * b + a * c
  {}

  lemma MulSwaps(a: int, b: int, c: int)
    ensures (a * b) * c == (a * c) * b
  {}

  /** A multiple of m strictly between -m and m is zero. */
  lemma SmallMultiple(d: int, m: int)
    requires -m < d * m < m
    ensures d == 0
  {
    if d > 0 {
      MulAtLeast(d, m);
    } else if d < 0 {
      assert (-d) * m == -(d * m);
      MulAtLeast(-d, m);
    }
  }

  lemma ModUnique(x: int, q: int, r: int, m: int)
    requires 0 <= r < m && x == q * m + r
    ensures x % m == r && x / m == q
  {
    DivMod(x, m);
    assert (x / m - q) * m == r - x % m;
    SmallMultiple(x / m - q, m);
  }

  lemma ModSmall(x: int, m: int)
    requires 0 <= x < 2 * m
    ensures x % m == if x < m then x else x - m
  {
    if x < m { ModUnique(x, 0, x, m); } else { ModUnique(x, 1, x - m, m); }
  }

  lemma ModShift(x: int, k: int, m: int)
    requires m > 0
    ensures (x + k * m) % m == x % m
  {
    DivMod(x, m);
    assert (x / m + k) * m == (x / m) * m + k * m;
    ModUnique(x + k * m, x / m + k, x % m, m);
  }

  lemma ModAdd(a: int, b: int, m: int)
    requires m > 0
    ensures (a % m + b) % m == (a + b) % m
  {
    DivMod(a, m);
    ModShift(a % m + b, a / m, m);
  }

  lemma ModSum(x: int, y: int, m: int)
    requires m > 0
    ensures (x % m + y % m) % m == (x + y) % m
  {
    ModAdd(x, y % m, m);
    ModAdd(y, x, m);
  }

  lemma ModMul(a: int, b: int, m: int)
    requires m > 0
    ensures ((a % m) * b) % m == (a * b) % m
  {
    DivMod(a, m);
    var q, r := a / m, a % m;
    assert a * b == r * b + (q * b) * m by {
      assert a * b == (q * m + r) * b;
      assert (q * m) * b == (q * b) * m;
    }
    ModShift(r * b, q * b, m);
  }

  lemma ModDistributes(a: int, b: int, c: int, m: int)
    requires m > 0
    ensures (a * ((b + c) % m)) % m == ((a * b) % m + (a * c) % m) % m
  {
    var s, x, y, z := (b + c) % m, a * b, a * c, (b + c) * a;
    assert (a * s) % m == (s * a) % m by { MulCommutes(a, s); }
    assert (s * a) % m == z % m by { ModMul(b + c, a, m); }
    assert z == x + y by { MulDistributes(a, b, c); }
    ModSum(x, y, m);
  }

  /** x and y leave the same remainder exactly when m divides their difference. */
  lemma ModEqual(x: int, y: int, m: int)
    requires m > 0
    ensures x % m == y % m <==> (x - y) % m == 0
  {
    ModAdd(x, -y, m);
    ModAdd(y, -y, m);
    ModAdd(x - y, y, m);
    assert 0 % m == 0;
  }

  /** A multiple of a multiple of m may be left out. */
  lemma MultipleAdds(c: int, x: int, e: int, m: int)
    requires m > 0 && c % m == 0
    ensures (c * x + e) % m == e % m
  {
    DivMod(c, m);
    var q := c / m;
    assert c * x == (q * x) * m by {
      MulAssociates(q, m, x);
      MulAssociates(q, x, m);
    }
    ModShift(e, q * x, m);
  }
}
