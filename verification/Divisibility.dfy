/**
 Divisibility facts behind the leader schedule: the multiples of a step `v`
 modulo `n` are exactly the residues divisible by gcd(v, n), each hit once
 every n / gcd(v, n) steps.
 */
module Divisibility {

  ghost predicate Divides(d: int, z: int) {
    exists k: int :: z == k * d
  }

  function Gcd(a: nat, b: nat): (g: nat)
    ensures a > 0 || b > 0 ==> g > 0
    decreases b
  {
    if b == 0 then a else Gcd(b, a % b)
  }

  lemma DividesIntro(d: int, z: int, k: int)
    requires z == k * d
    ensures Divides(d, z)
  {}

  lemma DividesAdd(d: int, y: int, z: int)
    requires Divides(d, y) && Divides(d, z)
    ensures Divides(d, y + z) && Divides(d, y - z)
  {
    var j: int :| y == j * d;
    var k: int :| z == k * d;
    assert y + z == (j + k) * d && y - z == (j - k) * d;
  }

  lemma DividesScale(d: int, z: int, m: int)
    requires Divides(d, z)
    ensures Divides(d, m * z) && Divides(d, z * m)
  {
    var k: int :| z == k * d;
    assert m * z == (m * k) * d;
    assert z * m == (m * k) * d;
  }

  lemma DividesTrans(c: int, d: int, z: int)
    requires Divides(c, d) && Divides(d, z)
    ensures Divides(c, z)
  {
    var j: int :| d == j * c;
    var k: int :| z == k * d;
    assert z == (k * j) * c;
  }

  // A product of divisors divides the product.
  lemma DividesProduct(c: int, y: int, d: int, z: int)
    requires Divides(c, y) && Divides(d, z)
    ensures Divides(c * d, y * z)
  {
    var j: int :| y == j * c;
    var k: int :| z == k * d;
    calc {
      y * z;
      (j * c) * (k * d);
      (j * k) * (c * d);
    }
  }

  lemma ModIsDivides(z: int, n: int)
    requires n > 0
    ensures z % n == 0 <==> Divides(n, z)
    ensures Divides(n, z - z % n)
  {
    assert z == (z / n) * n + z % n;
    DividesIntro(n, z - z % n, z / n);
    if Divides(n, z) {
      SmallMultiple(n, z % n) by {
        DividesAdd(n, z, z - z % n);
        assert z - (z - z % n) == z % n;
      }
    }
  }

  lemma SmallMultiple(n: int, z: int)
    requires n > 0 && -n < z < n && Divides(n, z)
    ensures z == 0
  {
    var k: int :| z == k * n;
    ScaledSize(k, n);
  }

  // |k * n| is at least n unless k is zero.
  lemma ScaledSize(k: int, n: int)
    requires n > 0
    ensures k >= 1 ==> k * n >= n
    ensures k <= -1 ==> k * n <= -n
  {
    if k >= 1 {
      assert (k - 1) * n >= 0;
    } else if k <= -1 {
      assert (-k - 1) * n >= 0;
    }
  }

  // Two integers have the same residue exactly when their difference is a multiple.
  lemma ModEqual(a: int, b: int, n: int)
    requires n > 0
    ensures a % n == b % n <==> Divides(n, a - b)
  {
    ModIsDivides(a, n);
    ModIsDivides(b, n);
    var ra, rb := a - a % n, b - b % n;
    DividesAdd(n, ra, rb);
    if a % n == b % n {
      assert ra - rb == a - b;
    }
    if Divides(n, a - b) {
      DividesAdd(n, a - b, ra - rb);
      assert (a - b) - (ra - rb) == a % n - b % n;
      SmallMultiple(n, a % n - b % n);
    }
  }

  // Residues modulo a divisor survive reduction modulo the multiple.
  lemma ModMod(z: int, g: int, n: int)
    requires g > 0 && n > 0 && Divides(g, n)
    ensures (z % n) % g == z % g
  {
    ModIsDivides(z, n);
    DividesTrans(g, n, z - z % n);
    ModEqual(z, z % n, g);
  }

  lemma GcdDivides(a: nat, b: nat)
    requires a > 0 || b > 0
    ensures Gcd(a, b) > 0 && Divides(Gcd(a, b), a) && Divides(Gcd(a, b), b)
    decreases b
  {
    var g := Gcd(a, b);
    if b == 0 {
      DividesIntro(g, a, 1);
      DividesIntro(g, b, 0);
    } else {
      GcdDivides(b, a % b);
      DividesRemainder(g, a, b);
    }
  }

  lemma DividesRemainder(g: int, a: nat, b: nat)
    requires b > 0 && Divides(g, b) && Divides(g, a % b)
    ensures Divides(g, a)
  {
    DividesScale(g, b, a / b);
    DividesAdd(g, (a / b) * b, a % b);
    assert a == (a / b) * b + a % b;
  }

  lemma {:induction false} Bezout(a: nat, b: nat) returns (x: int, y: int)
    ensures x * a + y * b == Gcd(a, b)
    decreases b
  {
    if b == 0 {
      x, y := 1, 0;
    } else {
      var x', y' := Bezout(b, a % b);
      x, y := y', x' - (a / b) * y';
      BezoutStep(a, b, a / b, a % b, x', y');
    }
  }

  lemma BezoutStep(a: int, b: int, q: int, r: int, x: int, y: int)
    requires a == q * b + r
    ensures y * a + (x - q * y) * b == x * b + y * r
  {
    assert y * (q * b + r) == y * (q * b) + y * r;
    assert (x - q * y) * b == x * b - (q * y) * b;
    assert (q * y) * b == y * (q * b);
  }

  lemma GcdBounds(v: nat, n: nat)
    requires n > 0
    ensures 1 <= Gcd(v, n) <= n
    ensures v > 0 ==> Gcd(v, n) <= v
    ensures n / Gcd(v, n) * Gcd(v, n) == n
    ensures Divides(Gcd(v, n), v) && Divides(Gcd(v, n), n)
  {
    var g := Gcd(v, n);
    GcdDivides(v, n);
    ModIsDivides(n, g);
    assert n == (n / g) * g + n % g;
    DivisorAtMost(g, n);
    if v > 0 {
      DivisorAtMost(g, v);
    }
  }

  lemma DivisorAtMost(d: int, z: int)
    requires d > 0 && z > 0 && Divides(d, z)
    ensures d <= z
  {
    if z < d {
      SmallMultiple(d, z);
    }
  }

  /** Number of steps of size `v` before the walk modulo `n` closes. */
  function Order(v: nat, n: nat): (o: nat)
    requires n > 0
    ensures o > 0 && o * Gcd(v, n) == n
  {
    GcdBounds(v, n);
    ScaledSize(n / Gcd(v, n), Gcd(v, n));
    n / Gcd(v, n)
  }

  // The walk with step v closes after Order(v, n) steps.
  lemma OrbitCloses(v: nat, n: nat)
    requires n > 0
    ensures Divides(n, Order(v, n) * v)
  {
    var g, o := Gcd(v, n), Order(v, n);
    GcdBounds(v, n);
    var k: int :| v == k * g;
    Reassociate(o, k, g);
    DividesIntro(n, o * v, k);
  }

  lemma Reassociate(o: int, k: int, g: int)
    ensures o * (k * g) == k * (o * g)
  {}

  // Before that it never meets the same residue twice.
  lemma OrbitInjective(v: nat, n: nat, d: int)
    requires n > 0 && 0 - Order(v, n) < d < Order(v, n)
    requires Divides(n, d * v)
    ensures d == 0
  {
    var g, o := Gcd(v, n), Order(v, n);
    var x, y := Bezout(v, n);
    BezoutMultiple(v, n, d, x, y, g);
    CancelDivides(d, o, g, n);
    SmallMultiple(o, d);
  }

  // If n divides d * v it divides d * gcd.
  lemma BezoutMultiple(v: int, n: int, d: int, x: int, y: int, g: int)
    requires x * v + y * n == g && Divides(n, d * v)
    ensures Divides(n, d * g)
  {
    DividesScale(n, d * v, x);
    DividesIntro(n, (d * y) * n, d * y);
    DividesAdd(n, x * (d * v), (d * y) * n);
    ScaledBezout(d, x, v, y, n, g);
  }

  lemma CancelDivides(d: int, o: int, g: int, n: int)
    requires g > 0 && o * g == n && Divides(n, d * g)
    ensures Divides(o, d)
  {
    var k: int :| d * g == k * n;
    Reassociate(o, k, g);
    assert k * (o * g) == (k * o) * g;
    CancelFactor(d, k * o, g);
    DividesIntro(o, d, k);
  }

  lemma ScaledBezout(d: int, x: int, v: int, y: int, n: int, g: int)
    requires x * v + y * n == g
    ensures x * (d * v) + (d * y) * n == d * g
    ensures (d * x) * v + (d * y) * n == d * g
  {
    assert d * (x * v + y * n) == d * (x * v) + d * (y * n);
  }

  lemma CancelFactor(a: int, b: int, g: int)
    requires g > 0 && a * g == b * g
    ensures a == b
  {
    assert (a - b) * g == 0;
    ScaledSize(a - b, g);
  }

  // And it meets every multiple of the gcd.
  lemma OrbitOnto(v: nat, n: nat, z: int) returns (e: nat)
    requires n > 0 && Divides(Gcd(v, n), z)
    ensures e < Order(v, n) && Divides(n, e * v - z)
  {
    var g, o := Gcd(v, n), Order(v, n);
    var x, y := Bezout(v, n);
    var k: int :| z == k * g;
    ScaledBezout(k, x, v, y, n, g);
    var m := k * x;
    e := m % o;
    OrbitCloses(v, n);
    ReducedMultiple(m, o, v, n, k * y, z);
  }

  // m * v = z - y * n, and reducing m modulo o changes m * v by a multiple of n.
  lemma ReducedMultiple(m: int, o: int, v: int, n: int, y: int, z: int)
    requires o > 0 && Divides(n, o * v) && m * v + y * n == z
    ensures Divides(n, (m % o) * v - z)
  {
    var q, e := m / o, m % o;
    assert m == q * o + e;
    DividesScale(n, o * v, q);
    DividesIntro(n, y * n, y);
    DividesAdd(n, y * n, q * (o * v));
    DividesScale(n, y * n + q * (o * v), -1);
    Reduced(m, q, o, e, v);
  }

  lemma Reduced(m: int, q: int, o: int, e: int, v: int)
    requires m == q * o + e
    ensures e * v == m * v - q * (o * v)
  {
    assert (q * o + e) * v == (q * o) * v + e * v;
  }
}
