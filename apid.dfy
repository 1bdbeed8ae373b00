/** The APID ionisation rate (Janev 1993, with the analytic forms of Stotler's svlib):
    for principal quantum number n <= 3 a six-term exponential-integral expansion,
    for n > 3 closed-form coefficients in n. */
module Apid {
  import opened Wrappers
  import opened Floats
  import opened PyData
  import opened ExpIntegral

  /** [E_1(p), ..., E_n(p)], the list `zeint` the source collects. */
  function ExpInts(lib: Lib, p: real, n: nat): (es: seq<Option<real>>)
    ensures |es| == n
    ensures forall i :: 0 <= i < n ==> es[i] == ExpIntValue(lib, i + 1, p)
  {
    seq(n, i => ExpIntValue(lib, i + 1, p))
  }

  predicate AllSome(es: seq<Option<real>>)
  {
    forall i :: 0 <= i < |es| ==> es[i].Some?
  }

  /** The weights `zmul` of E_2 .. E_6, fixed integer combinations of b[0..4]. */
  function Weights(b: seq<real>): (w: seq<real>)
    requires |b| >= 5
    ensures |w| == 5
    ensures w[0] + w[1] + w[2] + w[3] + w[4] == b[0]
  {
    [ b[0] + 2.0 * b[1] + 3.0 * b[2] + 4.0 * b[3] + 5.0 * b[4],
      -2.0 * (b[1] + 3.0 * b[2] + 6.0 * b[3] + 10.0 * b[4]),
      3.0 * (b[2] + 4.0 * b[3] + 10.0 * b[4]),
      -4.0 * (b[3] + 5.0 * b[4]),
      5.0 * b[4] ]
  }

  /** The binomial coefficient C(n, k). */
  function Binomial(n: nat, k: nat): nat
  {
    if k == 0 then 1 else if n == 0 then 0 else Binomial(n - 1, k - 1) + Binomial(n - 1, k)
  }

  /** Σ_{m = j}^{4} C(m + 1, j + 1)·b[m]. */
  function BinomialSum(b: seq<real>, j: nat, m: nat): real
    requires |b| >= 5 && m <= 5
    decreases 5 - m
  {
    if m == 5 then 0.0 else Binomial(m + 1, j + 1) as real * b[m] + BinomialSum(b, j, m + 1)
  }

  /** The entries of Pascal's triangle that the weights use. */
  lemma PascalRows()
    ensures Binomial(1, 1) == 1 && Binomial(2, 1) == 2 && Binomial(3, 1) == 3
    ensures Binomial(4, 1) == 4 && Binomial(5, 1) == 5
    ensures Binomial(2, 2) == 1 && Binomial(3, 2) == 3 && Binomial(4, 2) == 6 && Binomial(5, 2) == 10
    ensures Binomial(3, 3) == 1 && Binomial(4, 3) == 4 && Binomial(5, 3) == 10
    ensures Binomial(4, 4) == 1 && Binomial(5, 4) == 5 && Binomial(5, 5) == 1
  {
  }

  /** Weight j is (-1)^j·(j + 1)·Σ_{m >= j} C(m + 1, j + 1)·b[m]. */
  lemma WeightsAreBinomial(b: seq<real>)
    requires |b| >= 5
    ensures Weights(b)[0] == BinomialSum(b, 0, 0)
    ensures Weights(b)[1] == -2.0 * BinomialSum(b, 1, 1)
    ensures Weights(b)[2] == 3.0 * BinomialSum(b, 2, 2)
    ensures Weights(b)[3] == -4.0 * BinomialSum(b, 3, 3)
    ensures Weights(b)[4] == 5.0 * BinomialSum(b, 4, 4)
  {
    PascalRows();
    assert BinomialSum(b, 0, 0) == b[0] + 2.0 * b[1] + 3.0 * b[2] + 4.0 * b[3] + 5.0 * b[4];
    assert BinomialSum(b, 1, 1) == b[1] + 3.0 * b[2] + 6.0 * b[3] + 10.0 * b[4];
    assert BinomialSum(b, 2, 2) == b[2] + 4.0 * b[3] + 10.0 * b[4];
    assert BinomialSum(b, 3, 3) == b[3] + 5.0 * b[4];
    assert BinomialSum(b, 4, 4) == b[4];
  }

  /** zi1 = Σ_{i < n} w[i]·E_(i+2), over the defined values of `es`. */
  function WeightedSum(w: seq<real>, es: seq<Option<real>>, n: nat): real
    requires n <= |w| && n < |es|
    requires forall i :: 1 <= i <= n ==> es[i].Some?
  {
    if n == 0 then 0.0 else WeightedSum(w, es, n - 1) + w[n - 1] * es[n].value
  }

  /** The n <= 3 rate, for coefficients [n, A, b0, ..., b4]. */
  function LowN(lib: Lib, coeffs: seq<real>, T: real): Result<real>
    requires |coeffs| >= 1
  {
    if |coeffs| < 7 then Raised(IndexError)
    else
      var I := Div(lib, 13.6, coeffs[0] * coeffs[0]);
      Expanded(lib, Weights(coeffs[2..7]), coeffs[1], I, T, ExpInts(lib, Div(lib, I, T), 6))
  }

  /** The expansion over zeint = [E_1, ..., E_6] of I/T with weights zmul on E_2..E_6
      and A on E_1: a `None` among them reaches the arithmetic and raises TypeError. */
  function Expanded(lib: Lib, zmul: seq<real>, A: real, I: real, T: real, zeint: seq<Option<real>>): Result<real>
    requires |zmul| == 5 && |zeint| == 6
  {
    if !AllSome(zeint) then Raised(TypeError)
    else Ok(LowNRate(lib, I, T, WeightedSum(zmul, zeint, 5) + A * zeint[0].value))
  }

  /** 6.692e7·√T·zi3·(zi1 + zi2) with zi3 = 1e-13/(I·T). */
  function LowNRate(lib: Lib, I: real, T: real, zi: real): real
  {
    var zi3 := Div(lib, 1e-13, I * T);
    6.692e7 * lib.sqrt(T) * zi3 * zi
  }

  /** The n > 3 rate from the closed-form coefficients zg0, zg1, zg2, zan, zrn, zbn. Of
      the six `expint` values only the two E_1 can be None: E_0 and E_2 are defined
      wherever E_1 is. */
  function HighN(lib: Lib, n: real, T: real): (r: Result<real>)
    requires n > 3.0
    ensures r.Raised? ==> r.error == TypeError
    ensures var zyn := Div(lib, 13.6 / (n * n), T);
            r.Raised? <==> ExpIntValue(lib, 1, zyn).None?
                           || ExpIntValue(lib, 1, 1.94 * lib.pow(n, -1.57) + zyn).None?
  {
    var n2 := n * n;
    assert n2 > 0.0;
    var I := 13.6 / n2;
    var zg0 := 0.9935 + 0.2328 / n - 0.1296 / n2;
    var zg1 := -(0.6282 - 0.5598 / n + 0.5299 / n2) / n;
    var zg2 := -(0.3887 - 1.181 / n + 1.470 / n2) / n2;
    var zmul := Div(lib, 32.0, 3.0 * lib.sqrt(3.0) * lib.pi);
    var zan := zmul * n * (zg0 / 3.0 + zg1 / 4.0 + zg2 / 5.0);
    var zrn := 1.94 * lib.pow(n, -1.57);
    var zb := (4.0 - 18.63 / n + 36.24 / n2 - 28.09 / (n2 * n)) / n;
    var zbn := 2.0 * n2 * (5.0 + zb) / 3.0;
    var zyn := Div(lib, I, T);
    var zzn := zrn + zyn;
    var e1y, e1z := ExpIntValue(lib, 1, zyn), ExpIntValue(lib, 1, zzn);
    var e0y, e2y := ExpIntValue(lib, 0, zyn), ExpIntValue(lib, 2, zyn);
    var e0z, e2z := ExpIntValue(lib, 0, zzn), ExpIntValue(lib, 2, zzn);
    if e1y.None? || e1z.None? || e0y.None? || e2y.None? || e0z.None? || e2z.None? then
      Raised(TypeError)
    else
      var zint1 := zan * (Div(lib, e1y.value, zyn) - Div(lib, e1z.value, zzn));
      var zxiy := e0y.value - 2.0 * e1y.value + e2y.value;
      var zxiz := e0z.value - 2.0 * e1z.value + e2z.value;
      var zint2 := (zbn - zan * lib.log(2.0 * n2)) * (zxiy - zxiz);
      var zint3 := 1.76e-16 * n2 * (zyn * zyn);
      Ok(6.692e7 * lib.sqrt(T) * zint3 * (zint1 + zint2))
  }

  /** The nested `sigma(T, coeffs)` of the APID branch. */
  function ApidValue(lib: Lib, coeffs: seq<real>, T: real): Result<real>
  {
    if |coeffs| == 0 then Raised(IndexError)
    else if coeffs[0] <= 3.0 then LowN(lib, coeffs, T)
    else HighN(lib, coeffs[0], T)
  }

  /** For n <= 3 with all seven coefficients the expansion fails (a `None` from
      `expint` reaching arithmetic) exactly when the argument I/T is not positive. */
  lemma LowNFailsIffArgumentNotPositive(lib: Lib, coeffs: seq<real>, T: real)
    requires |coeffs| >= 7 && coeffs[0] <= 3.0
    ensures LowN(lib, coeffs, T).Raised?
        <==> Div(lib, Div(lib, 13.6, coeffs[0] * coeffs[0]), T) <= 0.0
    ensures LowN(lib, coeffs, T).Raised? ==> LowN(lib, coeffs, T).error == TypeError
  {
    var zarg := Div(lib, Div(lib, 13.6, coeffs[0] * coeffs[0]), T);
    var zeint := ExpInts(lib, zarg, 6);
    if zarg <= 0.0 {
      assert zeint[0].None?;
    } else {
      assert AllSome(zeint);
    }
  }

  /** For n > 3 the closed form fails exactly when I/T or zrn + I/T is not positive. */
  lemma HighNFailsIffArgumentNotPositive(lib: Lib, n: real, T: real)
    requires n > 3.0
    ensures HighN(lib, n, T).Raised?
        <==> (Div(lib, 13.6 / (n * n), T) <= 0.0
              || 1.94 * lib.pow(n, -1.57) + Div(lib, 13.6 / (n * n), T) <= 0.0)
  {
  }

  /** The source's `sigma(T, coeffs)`: the n <= 3 expansion, or the n > 3 closed form. */
  method ApidSigma(lib: Lib, coeffs: seq<real>, T: real) returns (r: Result<real>)
    ensures r == ApidValue(lib, coeffs, T)
  {
    if |coeffs| == 0 {
      return Raised(IndexError);
    }
    var n := coeffs[0];
    if n <= 3.0 {
      r := LowNSigma(lib, coeffs, T);
    } else {
      r := HighN(lib, n, T);
    }
  }

  /** The n <= 3 path: it appends E_1..E_6 to `zeint` and the five weights to `zmul`,
      then accumulates zi1 in a loop. With fewer than seven coefficients either
      `coeffs[1]` or `b[4]` is out of range; the `expint` calls between the two have no
      effect on the result, so the length is checked first here. */
  method LowNSigma(lib: Lib, coeffs: seq<real>, T: real) returns (r: Result<real>)
    requires |coeffs| >= 1
    ensures r == LowN(lib, coeffs, T)
  {
    if |coeffs| < 7 {
      return Raised(IndexError);
    }
    var I := Div(lib, 13.6, coeffs[0] * coeffs[0]);
    r := LowNTerms(lib, coeffs, I, Div(lib, I, T), T);
  }

  /** The body of the n <= 3 path once the coefficients are known to be complete. */
  method LowNTerms(lib: Lib, coeffs: seq<real>, I: real, zarg: real, T: real) returns (r: Result<real>)
    requires |coeffs| >= 7
    ensures r == Expanded(lib, Weights(coeffs[2..7]), coeffs[1], I, T, ExpInts(lib, zarg, 6))
  {
    var zeint := CollectExpInts(lib, zarg);
    var zmul := WeightList(coeffs[2..7]);
    r := Expansion(lib, zmul, coeffs[1], I, T, zeint);
  }

  /** The five appends to `zmul`. */
  method WeightList(b: seq<real>) returns (zmul: seq<real>)
    requires |b| == 5
    ensures zmul == Weights(b)
  {
    zmul := [];
    zmul := zmul + [b[0] + 2.0 * b[1] + 3.0 * b[2] + 4.0 * b[3] + 5.0 * b[4]];
    zmul := zmul + [-2.0 * (b[1] + 3.0 * b[2] + 6.0 * b[3] + 10.0 * b[4])];
    zmul := zmul + [3.0 * (b[2] + 4.0 * b[3] + 10.0 * b[4])];
    zmul := zmul + [-4.0 * (b[3] + 5.0 * b[4])];
    zmul := zmul + [5.0 * b[4]];
  }

  /** The loop `for i in range(1, 7): zeint.append(expint(i, zarg))`. */
  method CollectExpInts(lib: Lib, zarg: real) returns (zeint: seq<Option<real>>)
    ensures zeint == ExpInts(lib, zarg, 6)
  {
    zeint := [];
    for i := 1 to 7
      invariant zeint == ExpInts(lib, zarg, i - 1)
    {
      var e;
      ghost var steps;
      e, steps := ExpInt(lib, i, zarg);
      zeint := zeint + [e];
    }
  }

  /** zi1 from the weights, zi2 = A·E_1, and the rate from both. */
  method Expansion(lib: Lib, zmul: seq<real>, A: real, I: real, T: real, zeint: seq<Option<real>>)
    returns (r: Result<real>)
    requires |zmul| == 5 && |zeint| == 6
    ensures r == Expanded(lib, zmul, A, I, T, zeint)
  {
    var zi1 := Accumulate(zmul, zeint);
    if zi1.Raised? || zeint[0].None? {
      return Raised(TypeError);
    }
    var zi2 := A * zeint[0].value;
    return Ok(LowNRate(lib, I, T, zi1.value + zi2));
  }

  /** The loop `for i in range(5): zi1 += zmul[i]*zeint[i+1]`, raising TypeError at the
      first `None`. */
  method Accumulate(zmul: seq<real>, zeint: seq<Option<real>>) returns (r: Result<real>)
    requires |zmul| == 5 && |zeint| == 6
    ensures r.Ok? <==> forall j :: 1 <= j <= 5 ==> zeint[j].Some?
    ensures r.Ok? ==> r.value == WeightedSum(zmul, zeint, 5)
    ensures r.Raised? ==> r.error == TypeError
  {
    var zi1 := 0.0;
    for i := 0 to 5
      invariant forall j :: 1 <= j <= i ==> zeint[j].Some?
      invariant zi1 == WeightedSum(zmul, zeint, i)
    {
      if zeint[i + 1].None? {
        return Raised(TypeError);
      }
      zi1 := zi1 + zmul[i] * zeint[i + 1].value;
    }
    return Ok(zi1);
  }
}
