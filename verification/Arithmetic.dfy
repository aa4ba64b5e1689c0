/** Division, once, for the modules that reason about products. */
module Arithmetic {
  lemma DivMod(a: int, b: int)
    requires b > 0
    ensures b * (a / b) == a - a % b && 0 <= a % b < b
  {
  }

  lemma CancelStrictly(d: int, a: int, b: int)
    requires d > 0 && d * a < d * b
    ensures a < b
  {
    assert d * (b - a) > 0;
  }

  lemma ProductGrows(a: int, b: int, d: int)
    requires a <= b && d >= 0
    ensures a * d <= b * d
    ensures a < b && d > 0 ==> a * d < b * d
  {
    assert (b - a) * d >= 0;
    if a < b && d > 0 {
      assert (b - a) * d > 0;
    }
  }

  /** The quotient is the only number that leaves a proper remainder. */
  lemma UniqueQuotient(a: int, b: int, q: int)
    requires b > 0 && b * q <= a < b * q + b
    ensures a / b == q && a % b == a - b * q
  {
    var k := a / b;
    DivMod(a, b);
    assert b * (k + 1) == b * k + b && b * (q + 1) == b * q + b;
    CancelStrictly(b, q, k + 1);
    CancelStrictly(b, k, q + 1);
  }

  lemma Multiple(k: int, b: int)
    requires b > 0
    ensures (b * k) % b == 0
  {
    UniqueQuotient(b * k, b, k);
  }

  lemma SumOfMultiples(a: int, c: int, b: int)
    requires b > 0 && a % b == 0 && c % b == 0
    ensures (a + c) % b == 0
  {
    DivMod(a, b);
    DivMod(c, b);
    assert a + c == b * (a / b + c / b);
    Multiple(a / b + c / b, b);
  }

  lemma OneTurnBack(a: int, n: int)
    requires n > 0
    ensures (a - n) % n == a % n
  {
    DivMod(a, n);
    assert n * (a / n - 1) == n * (a / n) - n;
    UniqueQuotient(a - n, n, a / n - 1);
  }

  lemma BelowIsItself(a: int, n: int)
    requires 0 <= a < n
    ensures a % n == a && a / n == 0
  {
    UniqueQuotient(a, n, 0);
  }

  function Times(a: real, b: real): real {
    a * b
  }

  lemma TimesGrows(a: real, b: real, d: real)
    requires d > 0.0 && a <= b
    ensures Times(a, d) <= Times(b, d)
    ensures a < b ==> Times(a, d) < Times(b, d)
  {
    assert (b - a) * d >= 0.0;
    if a < b {
      assert (b - a) * d > 0.0;
    }
  }

  lemma TimesNext(f: real, d: real)
    ensures Times(f + 1.0, d) == Times(f, d) + d
  {
  }

  lemma TimesOfIntegers(f: int, d: int)
    ensures Times(f as real, d as real) == (d * f) as real
  {
    assert d * f == f * d;
  }

  lemma TimesOfQuotient(p: real, d: real)
    requires d != 0.0
    ensures Times(p / d, d) == p
  {
  }

  lemma OrderOfIntegers(n: int, p: int, d: int)
    requires n as real <= p as real < n as real + d as real
    ensures n <= p < n + d
  {
  }

  lemma FloorBounds(r: real)
    ensures r.Floor as real <= r < r.Floor as real + 1.0
  {
  }

  lemma RealQuotient(p: int, d: int, r: real, f: int)
    requires d > 0 && Times(r, d as real) == p as real && f as real <= r < f as real + 1.0
    ensures d * f <= p < d * f + d
  {
    hide Times;
    TimesGrows(f as real, r, d as real);
    TimesGrows(r, f as real + 1.0, d as real);
    TimesNext(f as real, d as real);
    TimesOfIntegers(f, d);
    OrderOfIntegers(d * f, p, d);
  }

  /** Casting an exact quotient to an integer is integer division. */
  lemma FloorOfQuotient(p: int, d: int)
    requires p >= 0 && d > 0
    ensures (p as real / d as real).Floor == p / d
  {
    var r := p as real / d as real;
    TimesOfQuotient(p as real, d as real);
    hide Times;
    FloorBounds(r);
    RealQuotient(p, d, r, r.Floor);
    UniqueQuotient(p, d, r.Floor);
  }
}
