/** to_fractional(): a time split into whole units and a fraction with denominator m, over exact
    reals instead of rounded doubles. */
module Fractional {

  // `static_cast` to an integer type.
  function Truncate(x: real): int { if x >= 0.0 then x.Floor else -((-x).Floor) }

  // The number of m-ths nearest to t, halves rounded up.
  function Nearest(t: real, m: int): int { (t * m as real + 0.5).Floor }

  lemma Between(x: real, m: real, y: real)
    requires 0.0 <= y < m && x * m == y
    ensures 0.0 <= x < 1.0
  {
    assert x * m < 1.0 * m;
  }

  // Division over the reals, rounded down, is integer division.
  lemma FloorOfQuotient(n: int, m: int)
    requires m > 0
    ensures (n as real / m as real).Floor == n / m
    ensures m as real * (n as real / m as real - (n / m) as real) == (n % m) as real
  {
    var q, r := n / m, n % m;
    var tt := n as real / m as real;
    assert n == m * q + r;
    assert n as real == m as real * q as real + r as real;
    assert tt * m as real == n as real;
    assert (tt - q as real) * m as real == r as real;
    assert 0.0 <= r as real < m as real;
    Between(tt - q as real, m as real, r as real);
  }

  lemma Positive(t: real, m: real)
    requires t >= 0.0 && m > 0.0
    ensures t * m >= 0.0
  {
  }

  /** The whole part and the fraction are those of the rounded number of m-ths; the assertions are
      the code's own. */
  method ToFractional(t: real, m: int) returns (s: int, f: int)
    requires m > 0 && t >= 0.0
    ensures 0 <= s && 0 <= f < m
    ensures s * m + f == Nearest(t, m)
  {
    ghost var n := Nearest(t, m);
    assert n >= 0 by { Positive(t, m as real); }
    FloorOfQuotient(n, m);
    var tt := (t * m as real + 0.5).Floor as real / m as real;
    assert tt >= 0.0;
    var i := tt.Floor as real;
    s := Truncate(i);
    var ff := m as real * (tt - i);
    assert 0.0 <= ff;
    assert ff < m as real;
    f := Truncate(ff + 0.5);
    assert 0 <= f;
    assert f < m;
  }

  lemma DividedBy(x: real, m: real, bound: real)
    requires m > 0.0
    ensures x * m < bound ==> x < bound / m
    ensures x * m >= bound ==> x >= bound / m
  {
    assert bound / m * m == bound;
    if x >= bound / m {
      assert (x - bound / m) * m >= 0.0;
    } else {
      assert (bound / m - x) * m > 0.0;
    }
  }

  lemma Ordered(m: int, a: int, b: int)
    requires m > 0
    ensures a <= b ==> a * m <= b * m
  {
    if a <= b {
      assert b * m == a * m + (b - a) * m;
    }
  }

  // A multiple of m between -m and m is 0.
  lemma Small(k: int, m: int, x: int)
    requires m > 0 && k * m == x && -m < x < m
    ensures k == 0
  {
    Ordered(m, 1, k);
    Ordered(m, k, -1);
  }

  lemma Only(n: int, m: int, s: int, f: int)
    requires m > 0 && 0 <= f < m && n == s * m + f
    ensures s == n / m && f == n % m
  {
    var q, r := n / m, n % m;
    assert n == q * m + r;
    assert (s - q) * m == r - f;
    Small(s - q, m, r - f);
  }

  /** A split of the nearest number of m-ths is within half of one of them, and it is the only one
      with a proper fraction. */
  lemma SplitIsNearest(t: real, m: int, s: int, f: int)
    requires m > 0 && t >= 0.0 && 0 <= f < m
    requires s * m + f == Nearest(t, m)
    ensures -0.5 / m as real <= t - (s as real + f as real / m as real) < 0.5 / m as real
    ensures s == Nearest(t, m) / m && f == Nearest(t, m) % m
  {
    var d, mm := t - (s as real + f as real / m as real), m as real;
    assert f as real / mm * mm == f as real;
    assert d * mm == t * mm - (s * m + f) as real;
    DividedBy(d, mm, -0.5);
    DividedBy(d, mm, 0.5);
    Only(Nearest(t, m), m, s, f);
  }
}
