/** The floating-point vocabulary of the reaction core.

    Numbers are modelled as exact reals. Everything the core takes from numpy and
    scipy that is not exact arithmetic (exponentials, logarithms, roots, powers with a
    non-integer exponent, number formatting, the two interpolators and the quadrature
    routine) is a field of `Lib`, left uninterpreted: no property proved here depends
    on how these functions behave. */
module Floats {

  /** The numeric library the core calls into. */
  datatype Lib = Lib(
    exp: real -> real,                    // numpy.exp
    log: real -> real,                    // numpy.log (natural)
    log10: real -> real,                  // numpy.log10
    sqrt: real -> real,                   // numpy.sqrt
    pow: (real, real) -> real,            // x ** y for a non-integer exponent y
    pi: real,                             // numpy.pi
    byZero: real -> real,                 // the IEEE value (inf or nan) of a / 0
    fmt: real -> string,                  // '{}'.format of a number
    interp1d: (seq<real>, seq<real>, real) -> real,
    interp2d: (seq<real>, seq<real>, seq<seq<real>>, real, real) -> real,
    quad: (real -> real) -> real)         // scipy.integrate.quad over [0, inf), first result

  /** Floating division `a / b`; a zero divisor yields the library's opaque non-finite value. */
  function Div(lib: Lib, a: real, b: real): real
  {
    if b == 0.0 then lib.byZero(a) else a / b
  }

  /** `x ** n` for a non-negative integer exponent. */
  function Pow(x: real, n: nat): real
  {
    if n == 0 then 1.0 else x * Pow(x, n - 1)
  }

  lemma {:induction false} PowPositive(x: real, n: nat)
    requires x > 0.0
    ensures Pow(x, n) > 0.0
  {
    if n > 0 {
      PowPositive(x, n - 1);
    }
  }

  /** Python's built-in `min(a, b)`: the first argument unless the second is smaller. */
  function Min(a: real, b: real): (m: real)
    ensures m <= a && m <= b && (m == a || m == b)
  {
    if b < a then b else a
  }

  /** Python's built-in `max(a, b)`: the first argument unless the second is larger. */
  function Max(a: real, b: real): (m: real)
    ensures m >= a && m >= b && (m == a || m == b)
  {
    if b > a then b else a
  }

  /** The smallest entry of a non-empty sequence. */
  function Lowest(xs: seq<real>): (m: real)
    requires |xs| >= 1
    ensures m in xs
    ensures forall i :: 0 <= i < |xs| ==> m <= xs[i]
  {
    if |xs| == 1 then xs[0] else Min(Lowest(xs[..|xs| - 1]), xs[|xs| - 1])
  }

  /** The largest entry of a non-empty sequence. */
  function Highest(xs: seq<real>): (m: real)
    requires |xs| >= 1
    ensures m in xs
    ensures forall i :: 0 <= i < |xs| ==> xs[i] <= m
  {
    if |xs| == 1 then xs[0] else Max(Highest(xs[..|xs| - 1]), xs[|xs| - 1])
  }

  /** Python's `int(x)`: truncation toward zero. */
  function Trunc(x: real): (t: int)
    ensures x >= 0.0 ==> t as real <= x < t as real + 1.0
    ensures x < 0.0 ==> t as real - 1.0 < x <= t as real
  {
    if x >= 0.0 then x.Floor else -((-x).Floor)
  }

  /** The polynomial c[0] + c[1]·x + ... + c[n-1]·x^(n-1), coefficients in ascending order. */
  function PolySum(c: seq<real>, x: real): real
  {
    if |c| == 0 then 0.0 else PolySum(c[..|c| - 1], x) + c[|c| - 1] * Pow(x, |c| - 1)
  }

  /** Appending a coefficient adds its term at the next power. */
  lemma PolySumSnoc(c: seq<real>, a: real, x: real, k: nat)
    requires k == |c|
    ensures PolySum(c + [a], x) == PolySum(c, x) + a * Pow(x, k)
  {
    assert (c + [a])[..|c|] == c;
  }

  /** Prepending a coefficient is one Horner step: a + x·p(x). */
  lemma {:induction false} PolySumCons(a: real, d: seq<real>, x: real)
    ensures PolySum([a] + d, x) == a + x * PolySum(d, x)
  {
    if |d| == 0 {
      assert [a] + d == [] + [a];
      PolySumSnoc([], a, x, 0);
      assert PolySum(d, x) == 0.0;
    } else {
      assert [a] + d == ([a] + d[..|d| - 1]) + [d[|d| - 1]];
      assert d == d[..|d| - 1] + [d[|d| - 1]];
      PolySumSnoc([a] + d[..|d| - 1], d[|d| - 1], x, |d|);
      PolySumSnoc(d[..|d| - 1], d[|d| - 1], x, |d| - 1);
      PolySumCons(a, d[..|d| - 1], x);
      HornerStep(PolySum([a] + d, x), PolySum([a] + d[..|d| - 1], x), a, x, PolySum(d[..|d| - 1], x),
                 d[|d| - 1], Pow(x, |d| - 1), Pow(x, |d|), PolySum(d, x));
    }
  }

  /** The algebra of one Horner step: if L = M + z·P with M = a + x·s, P = x·p and
      S = s + z·p, then L = a + x·S. */
  lemma HornerStep(L: real, M: real, a: real, x: real, s: real, z: real, p: real, P: real, S: real)
    requires L == M + z * P && M == a + x * s
    requires P == x * p && S == s + z * p
    ensures L == a + x * S
  {
  }

  /** c[0]·x^(n-1) + c[1]·x^(n-2) + ... + c[n-1], coefficients in descending order. */
  function Descending(c: seq<real>, x: real): real
  {
    if |c| == 0 then 0.0 else c[0] * Pow(x, |c| - 1) + Descending(c[1..], x)
  }

  /** The monic polynomial x^n + c[0]·x^(n-1) + ... + c[n-1]. */
  function Monic(c: seq<real>, x: real): real
  {
    Pow(x, |c|) + Descending(c, x)
  }

  lemma {:induction false} DescendingSnoc(d: seq<real>, c: real, x: real)
    ensures Descending(d + [c], x) == x * Descending(d, x) + c
  {
    if |d| == 0 {
      assert (d + [c])[1..] == [];
    } else {
      assert (d + [c])[0] == d[0] && |d + [c]| - 1 == |d|;
      assert (d + [c])[1..] == d[1..] + [c];
      DescendingSnoc(d[1..], c, x);
      DescendingStep(d[0], x, Pow(x, |d| - 1), Pow(x, |d|), Descending(d[1..], x), Descending(d, x), c);
    }
  }

  /** The algebra of one step of the descending form: with P = x·p and D = d0·p + t,
      d0·P + (x·t + c) = x·D + c. */
  lemma DescendingStep(d0: real, x: real, p: real, P: real, t: real, D: real, c: real)
    requires P == x * p && D == d0 * p + t
    ensures d0 * P + (x * t + c) == x * D + c
  {
  }

  /** Appending a coefficient is one Horner step: c + x·m(x). */
  lemma MonicSnoc(d: seq<real>, c: real, x: real)
    ensures Monic(d + [c], x) == c + x * Monic(d, x)
  {
    DescendingSnoc(d, c, x);
  }

  /** A monic polynomial with non-negative coefficients is positive at a positive point. */
  lemma {:induction false} MonicPositive(c: seq<real>, x: real)
    requires x > 0.0
    requires forall i :: 0 <= i < |c| ==> c[i] >= 0.0
    ensures Monic(c, x) > 0.0
  {
    if |c| > 0 {
      var d := c[..|c| - 1];
      assert c == d + [c[|c| - 1]];
      MonicPositive(d, x);
      MonicSnoc(d, c[|c| - 1], x);
    }
  }

  /** Horner's rule, as the source writes it: start from the leading coefficient and
      fold in the lower ones from the top down. */
  method Horner(c: seq<real>, x: real) returns (r: real)
    requires |c| >= 1
    ensures r == PolySum(c, x)
  {
    var i := |c| - 1;
    r := c[i];
    assert PolySum(c[i..], x) == PolySum([], x) + c[i] * Pow(x, 0) by {
      assert c[i..] == [c[i]];
      assert [c[i]][..0] == [];
    }
    while i > 0
      invariant 0 <= i < |c|
      invariant r == PolySum(c[i..], x)
    {
      i := i - 1;
      assert c[i..] == [c[i]] + c[i + 1..];
      PolySumCons(c[i], c[i + 1..], x);
      r := c[i] + r * x;
    }
    assert c[0..] == c;
  }

  /** Horner's rule for two monic polynomials of equal degree in one pass, starting
      from the implicit leading coefficient 1. */
  method MonicPair(c: seq<real>, d: seq<real>, x: real) returns (num: real, den: real)
    requires |c| == |d|
    ensures num == Monic(c, x) && den == Monic(d, x)
  {
    num, den := 1.0, 1.0;
    for i := 0 to |c|
      invariant num == Monic(c[..i], x) && den == Monic(d[..i], x)
    {
      assert c[..i + 1] == c[..i] + [c[i]];
      assert d[..i + 1] == d[..i] + [d[i]];
      MonicSnoc(c[..i], c[i], x);
      MonicSnoc(d[..i], d[i], x);
      num := c[i] + num * x;
      den := d[i] + den * x;
    }
    assert c[..|c|] == c && d[..|d|] == d;
  }
}
