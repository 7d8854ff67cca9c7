/** Divisibility over the integers, as far as the cycle of a counter needs it. */
module Divisibility {
  predicate Divides(d: int, n: int)
    requires d > 0
  {
    n % d == 0
  }

  lemma DividesWitness(d: int, n: int) returns (q: int)
    requires d > 0 && Divides(d, n)
    ensures n == d * q
  {
    q := n / d;
  }

  lemma ModIs(n: int, m: int, q: int, r: int)
    requires m > 0 && n == m * q + r && 0 <= r < m
    ensures n % m == r
  {
    var d := q - n / m;
    assert m * d == n % m - r by {
      assert n == m * (n / m) + n % m;
      assert m * d == m * q - m * (n / m);
    }
    assert d >= 1 ==> m * d >= m;
    assert d <= -1 ==> m * d <= -m;
  }

  lemma MultipleDivides(d: int, q: int)
    requires d > 0
    ensures Divides(d, d * q) && Divides(d, q * d)
  {
    ModIs(d * q, d, q, 0);
  }

  /** Equal remainders mean a difference that is divided. */
  lemma SameRemainder(a: int, b: int, m: int)
    requires m > 0
    ensures a % m == b % m <==> Divides(m, b - a)
  {
    assert a == m * (a / m) + a % m && b == m * (b / m) + b % m;
    if a % m == b % m {
      assert b - a == m * (b / m - a / m);
      MultipleDivides(m, b / m - a / m);
    }
    if Divides(m, b - a) {
      var q := DividesWitness(m, b - a);
      assert b == m * (a / m + q) + a % m;
      ModIs(b, m, a / m + q, a % m);
    }
  }

  lemma AddRemainder(a: int, s: int, m: int)
    requires m > 0
    ensures (a % m + s) % m == (a + s) % m
  {
    assert a == m * (a / m) + a % m;
    assert (a + s) - (a % m + s) == m * (a / m);
    MultipleDivides(m, a / m);
    SameRemainder(a % m + s, a + s, m);
  }

  lemma DividesSum(d: int, a: int, b: int)
    requires d > 0 && Divides(d, a) && Divides(d, b)
    ensures Divides(d, a + b) && Divides(d, a - b)
  {
    var p := DividesWitness(d, a);
    var q := DividesWitness(d, b);
    assert a + b == d * (p + q) && a - b == d * (p - q);
    MultipleDivides(d, p + q);
    MultipleDivides(d, p - q);
  }

  lemma DividesProduct(d: int, a: int, x: int)
    requires d > 0 && Divides(d, a)
    ensures Divides(d, a * x)
  {
    var q := DividesWitness(d, a);
    assert a * x == d * (q * x);
    MultipleDivides(d, q * x);
  }

  function Gcd(a: nat, b: nat): (g: nat)
    requires a > 0 || b > 0
    ensures g > 0
    decreases b
  {
    if b == 0 then a else Gcd(b, a % b)
  }

  /** Gcd divides both numbers and is a combination of them, so it is their greatest divisor. */
  lemma {:induction false} GcdIsCommonCombination(a: nat, b: nat) returns (x: int, y: int)
    requires a > 0 || b > 0
    ensures Divides(Gcd(a, b), a) && Divides(Gcd(a, b), b)
    ensures Gcd(a, b) == a * x + b * y
    decreases b
  {
    if b == 0 {
      x, y := 1, 0;
      MultipleDivides(a, 1);
    } else {
      var g := Gcd(a, b);
      var u, v := GcdIsCommonCombination(b, a % b);
      x, y := v, u - (a / b) * v;
      assert a == b * (a / b) + a % b;
      Recombine(a, b, a / b, a % b, u, v, g);
      DividesProduct(g, b, a / b);
      DividesSum(g, b * (a / b), a % b);
    }
  }

  lemma Recombine(a: int, b: int, q: int, r: int, u: int, v: int, g: int)
    requires a == b * q + r && g == b * u + r * v
    ensures g == a * v + b * (u - q * v)
  {
    assert a * v == (b * q) * v + r * v;
    assert b * (u - q * v) == b * u - b * (q * v);
    assert b * (q * v) == (b * q) * v;
  }

  lemma CancelFactor(g: int, a: int, b: int)
    requires g > 0 && g * a == g * b
    ensures a == b
  {
    assert g * (a - b) == 0;
  }

  lemma FactorIsPositive(g: int, q: int)
    requires g > 0 && g * q > 0
    ensures q > 0
  {
    assert q <= 0 ==> g * q <= 0;
  }

  lemma QuotientIs(m: int, g: int, q: int)
    requires g > 0 && m == g * q
    ensures m / g == q
  {
    ModIs(m, g, q, 0);
    assert m == g * (m / g) + m % g;
    CancelFactor(g, m / g, q);
  }

  /** The greatest common divisor and what is left of the two numbers. */
  lemma GcdSplits(s: nat, m: nat) returns (r: int, p: nat, x: int, y: int)
    requires m > 0 && s > 0
    ensures s == Gcd(s, m) * r && m == Gcd(s, m) * p && p > 0 && p == m / Gcd(s, m)
    ensures r * x + p * y == 1
  {
    var g := Gcd(s, m);
    x, y := GcdIsCommonCombination(s, m);
    r := DividesWitness(g, s);
    var q := DividesWitness(g, m);
    FactorIsPositive(g, q);
    p := q;
    QuotientIs(m, g, p);
    UnitCombination(g, s, m, r, p, x, y);
  }

  lemma UnitCombination(g: int, s: int, m: int, r: int, p: int, x: int, y: int)
    requires g > 0 && s == g * r && m == g * p && g == s * x + m * y
    ensures r * x + p * y == 1
  {
    assert g * (r * x) == (g * r) * x && g * (p * y) == (g * p) * y;
    CancelFactor(g, r * x + p * y, 1);
  }

  /** m divides k * s exactly when m / gcd(s, m) divides k. */
  lemma DividesMultiple(m: nat, s: nat, k: int)
    requires m > 0 && s > 0
    ensures m / Gcd(s, m) > 0
    ensures Divides(m, k * s) <==> Divides(m / Gcd(s, m), k)
  {
    var r, p, x, y := GcdSplits(s, m);
    if Divides(m, k * s) {
      var q := DividesWitness(m, k * s);
      FactorOut(Gcd(s, m), k, r, p, q, s, m);
      Reassemble(k, r, p, q, x, y);
      MultipleDivides(p, q * x + k * y);
    }
    if Divides(p, k) {
      var q := DividesWitness(p, k);
      FactorIn(Gcd(s, m), k, r, p, q, s, m);
      MultipleDivides(m, q * r);
    }
  }

  lemma FactorOut(g: int, k: int, r: int, p: int, q: int, s: int, m: int)
    requires g > 0 && s == g * r && m == g * p && k * s == m * q
    ensures k * r == p * q
  {
    assert g * (k * r) == k * (g * r);
    assert g * (p * q) == (g * p) * q;
    CancelFactor(g, k * r, p * q);
  }

  lemma FactorIn(g: int, k: int, r: int, p: int, q: int, s: int, m: int)
    requires s == g * r && m == g * p && k == p * q
    ensures k * s == m * (q * r)
  {
    assert (p * q) * (g * r) == (g * p) * (q * r);
  }

  lemma Reassemble(k: int, r: int, p: int, q: int, x: int, y: int)
    requires r * x + p * y == 1 && k * r == p * q
    ensures k == p * (q * x + k * y)
  {
    assert k == k * (r * x + p * y);
    assert k * (r * x) == (k * r) * x;
    assert (p * q) * x == p * (q * x);
    assert k * (p * y) == p * (k * y);
  }
}
