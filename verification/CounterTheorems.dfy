/** The cycle of a counter. */
module CounterTheorems {
  import opened Divisibility
  import opened CounterSpec

  function Size(c: Counter): int {
    c.to - c.from
  }

  lemma NextIsAddition(c: Counter)
    requires Cyclic(c)
    ensures Cyclic(Next(c))
    ensures Next(c).current - c.from == (c.current - c.from + c.step) % Size(c)
  {
    var sum := c.current - c.from + c.step;
    if c.to - c.current > c.step {
      ModIs(sum, Size(c), 0, sum);
    } else {
      ModIs(sum, Size(c), 1, sum - Size(c));
    }
  }

  /** n steps in closed form. */
  lemma {:induction false} ClosedForm(c: Counter, n: nat)
    requires Cyclic(c)
    ensures Cyclic(Nth(c, n)) && Nth(c, n) == c.(current := Nth(c, n).current)
    ensures Nth(c, n).current == c.from + (c.current - c.from + n * c.step) % Size(c)
  {
    if n == 0 {
      ModIs(c.current - c.from, Size(c), 0, c.current - c.from);
    } else {
      ClosedForm(c, n - 1);
      NextIsAddition(Nth(c, n - 1));
      var before := c.current - c.from + (n - 1) * c.step;
      AddRemainder(before, c.step, Size(c));
      assert before + c.step == c.current - c.from + n * c.step;
    }
  }

  function Period(c: Counter): int
    requires Cyclic(c)
  {
    Size(c) / Gcd(c.step, Size(c))
  }

  /** Two moments show the same value iff the period divides their distance: the period is exact,
      and within one period all values differ. */
  lemma ExactPeriod(c: Counter, i: nat, j: nat)
    requires Cyclic(c)
    ensures Period(c) > 0
    ensures Nth(c, i).current == Nth(c, j).current <==> (j - i) % Period(c) == 0
  {
    ClosedForm(c, i);
    ClosedForm(c, j);
    var a, b := c.current - c.from + i * c.step, c.current - c.from + j * c.step;
    SameRemainder(a, b, Size(c));
    assert b - a == (j - i) * c.step;
    DividesMultiple(Size(c), c.step, j - i);
  }

  /** A value is ever shown iff it is in range and differs from the start by a multiple of
      gcd(step, to - from); with gcd 1 that is the whole range. */
  lemma VisitedValues(c: Counter, v: int)
    requires Cyclic(c)
    ensures (exists n: nat :: Nth(c, n).current == v) <==>
            c.from <= v < c.to && (v - c.current) % Gcd(c.step, Size(c)) == 0
  {
    var g := Gcd(c.step, Size(c));
    if n: nat :| Nth(c, n).current == v {
      VisitedAreCongruent(c, n);
    }
    if c.from <= v < c.to && Divides(g, v - c.current) {
      var n := MomentOf(c, v);
    }
  }

  lemma VisitedAreCongruent(c: Counter, n: nat)
    requires Cyclic(c)
    ensures Cyclic(Nth(c, n)) && Nth(c, n) == c.(current := Nth(c, n).current)
    ensures Divides(Gcd(c.step, Size(c)), Nth(c, n).current - c.current)
  {
    ClosedForm(c, n);
    var g := Gcd(c.step, Size(c));
    var x, y := GcdIsCommonCombination(c.step, Size(c));
    var sum := c.current - c.from + n * c.step;
    DividesProduct(g, c.step, n);
    RemainderIsCongruent(g, Size(c), sum);
    DividesSum(g, n * c.step, sum - sum % Size(c));
    assert n * c.step - (sum - sum % Size(c)) == Nth(c, n).current - c.current;
  }

  lemma RemainderIsCongruent(g: int, m: int, a: int)
    requires g > 0 && m > 0 && Divides(g, m)
    ensures Divides(g, a - a % m)
  {
    assert a - a % m == m * (a / m);
    DividesProduct(g, m, a / m);
  }

  /** When a value that may be shown is shown: within the first to - from steps. */
  lemma MomentOf(c: Counter, v: int) returns (n: nat)
    requires Cyclic(c) && c.from <= v < c.to && Divides(Gcd(c.step, Size(c)), v - c.current)
    ensures n < Size(c) && Nth(c, n).current == v
  {
    var m := Size(c);
    var x, y := GcdIsCommonCombination(c.step, m);
    var k := DividesWitness(Gcd(c.step, m), v - c.current);
    n := (x * k) % m;
    var q := (x * k) / m;
    assert x * k == m * q + n;
    StepsReach(c.step, m, x, y, k, q, n, v - c.current);
    ClosedForm(c, n);
    ModIs(c.current - c.from + n * c.step, m, -(y * k) - q * c.step, v - c.from);
  }

  lemma StepsReach(s: int, m: int, x: int, y: int, k: int, q: int, n: int, d: int)
    requires d == (s * x + m * y) * k && x * k == m * q + n
    ensures n * s == d + m * (-(y * k) - q * s)
  {
    assert d == s * (x * k) + m * (y * k);
    assert s * (m * q + n) == m * (q * s) + n * s;
  }

  /** Which steps keep the counter in its range, whatever its current value: exactly those from 0 up
      to the size of the range. */
  lemma StaysInRangeIff(from: int, to: int, step: int)
    requires from < to
    ensures (forall current :: from <= current < to ==> from <= Next(Counter(current, from, to, step)).current < to)
            <==> 0 <= step <= to - from
  {
    if step > to - from {
      var c := Counter(to - 1, from, to, step);
      assert Next(c).current == from + step - 1 >= to;
    }
    if step < 0 {
      var c := Counter(from, from, to, step);
      assert Next(c).current == from + step < from;
    }
  }

  /** No intermediate value overflows, at any point of the range, iff its size fits and so does its
      beginning plus one step. */
  lemma NoOverflowIff(from: int, to: int, step: int)
    requires IsLong(from) && IsLong(to) && IsLong(step) && from < to
    ensures (forall current :: from <= current < to ==> NoOverflow(Counter(current, from, to, step)))
            <==> to - from <= MAX_LONG && IsLong(from + step)
  {
    if to - from > MAX_LONG {
      assert !NoOverflow(Counter(from, from, to, step));
    } else if !IsLong(from + step) {
      assert !NoOverflow(Counter(if step < 0 then from else to - 1, from, to, step));
    }
  }

  lemma NeverOverflows(c: Counter, n: nat)
    requires IsMachine(c) && Cyclic(c) && Size(c) <= MAX_LONG
    ensures NoOverflow(Nth(c, n)) && IsMachine(Nth(c, n))
  {
    ClosedForm(c, n);
    NoOverflowIff(c.from, c.to, c.step);
  }
}
