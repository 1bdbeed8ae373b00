/** The exponential integral E_k(p) used by the APID ionisation rate: a case analysis
    on k and p over the Abramowitz & Stegun approximations 5.1.53 (series, 0 < p < 1)
    and 5.1.56 (rational, p >= 1), the recurrence 5.1.14 run forwards from E_1 or
    backwards from an asymptotic estimate, and that asymptotic estimate itself. */
module ExpIntegral {
  import opened Wrappers
  import opened Floats

  /** A&S 5.1.53: E_1(p) + ln p, ascending powers of p. */
  const SeriesCoeffs: seq<real> :=
    [-0.57721566, 0.99999193, -0.24991055, 0.05519968, -0.00976004, 0.00107857]

  /** A&S 5.1.56: the monic numerator and denominator, descending powers of p. */
  const NumeratorCoeffs: seq<real> := [8.5733287401, 18.0590169730, 8.6347608925, 0.2677737343]
  const DenominatorCoeffs: seq<real> := [9.5733223454, 25.6329561486, 21.0996530827, 3.9584969228]

  /** E_1 by the series, used for 0 < p < 1. */
  function E1Series(lib: Lib, p: real): real
  {
    PolySum(SeriesCoeffs, p) - lib.log(p)
  }

  /** The rational approximation's divisor p·Q(p) is positive for every p > 0, so the
      source's division never meets a zero there. */
  lemma RationalDivisorPositive(p: real)
    requires p > 0.0
    ensures Monic(DenominatorCoeffs, p) * p > 0.0
  {
    MonicPositive(DenominatorCoeffs, p);
  }

  /** E_1 by the rational approximation, used for p >= 1. */
  function E1Rational(lib: Lib, p: real): real
    requires p > 0.0
  {
    RationalDivisorPositive(p);
    lib.exp(-p) * Monic(NumeratorCoeffs, p) / (Monic(DenominatorCoeffs, p) * p)
  }

  /** The starting value E_1 of the forward recurrence. */
  function E1(lib: Lib, p: real): real
    requires p > 0.0
  {
    if p < 1.0 then E1Series(lib, p) else E1Rational(lib, p)
  }

  /** One step of A&S 5.1.14 upwards: E_i = (e^-p - p·E_(i-1)) / (i-1). */
  function ForwardStep(lib: Lib, p: real, i: int, z: real): real
    requires i != 1
  {
    (lib.exp(-p) - p * z) / (i - 1) as real
  }

  /** One step of A&S 5.1.14 downwards: E_i = (e^-p - i·E_(i+1)) / p. */
  function BackwardStep(lib: Lib, p: real, i: int, z: real): real
    requires p != 0.0
  {
    (lib.exp(-p) - i as real * z) / p
  }

  /** The recurrence run forwards from e1 = E_1 up to E_k; any k <= 1 gives e1 back
      (the source's loop is then empty). */
  function Forward(lib: Lib, p: real, e1: real, k: int): real
    decreases k
  {
    if k <= 1 then e1 else ForwardStep(lib, p, k, Forward(lib, p, e1, k - 1))
  }

  /** The recurrence run backwards from s = E_top down to E_i. */
  function Backward(lib: Lib, p: real, top: int, s: real, i: int): real
    requires p != 0.0
    decreases top - i
  {
    if i >= top then s else BackwardStep(lib, p, i, Backward(lib, p, top, s, i + 1))
  }

  /** The asymptotic estimate en(n, z) of E_n(z) for large z. Its correction terms all
      carry a factor n, so for n = 0 it is exactly E_0(z) = e^-z / z. */
  function Asymptotic(lib: Lib, zn: real, z: real): (e: real)
    requires z + zn > 0.0
    ensures zn == 0.0 ==> e == lib.exp(-z) / z
  {
    var w := z + zn;
    PowPositive(w, 2);
    PowPositive(w, 4);
    PowPositive(w, 6);
    lib.exp(-z)
      * (1.0 + zn / Pow(w, 2) + zn * (zn - 2.0 * z) / Pow(w, 4)
         + zn * (6.0 * (z * z) - 8.0 * zn * z + zn * zn) / Pow(w, 6))
      / w
  }

  /** `expint(k, p)`: None where the source returns None, the approximation otherwise. */
  function ExpIntValue(lib: Lib, k: int, p: real): (r: Option<real>)
    ensures r.Some? <==> p > 0.0 || (p == 0.0 && k != 1)
  {
    if k == 0 then
      if p < 0.0 then None else Some(Div(lib, lib.exp(-p), p))
    else if p < 0.0 then None
    else if p == 0.0 then
      if k == 1 then None else Some(1.0 / (k - 1) as real)
    else Some(ExpIntPositive(lib, k, p))
  }

  /** `expint(k, p)` for k != 0 and p > 0: the forward recurrence from E_1 when p < 8
      or k = 1, else the backward recurrence from the estimate at min(int(p + 0.5), 10)
      when k lies below both, else the estimate itself. */
  function ExpIntPositive(lib: Lib, k: int, p: real): real
    requires p > 0.0
  {
    if p < 8.0 || k == 1 then
      Forward(lib, p, E1(lib, p), k)
    else
      var kp := Trunc(p + 0.5);
      if k < kp && k <= 10 then
        var top := if kp > 10 then 10 else kp;
        Backward(lib, p, top, Asymptotic(lib, top as real, p), k)
      else
        Asymptotic(lib, k as real, p)
  }

  /** The closed forms at the edges of the domain: E_0(p) = e^-p / p for p > 0, and
      E_k(0) = 1/(k-1) for k >= 2. */
  lemma ExpIntClosedForms(lib: Lib, k: int, p: real)
    ensures k == 0 && p > 0.0 ==> ExpIntValue(lib, k, p) == Some(lib.exp(-p) / p)
    ensures k >= 2 && p == 0.0 ==> ExpIntValue(lib, k, p) == Some(1.0 / (k - 1) as real)
  {
  }

  /** How many recurrence steps `expint(k, p)` takes. */
  function RecurrenceSteps(k: int, p: real): nat
  {
    if k == 0 || p <= 0.0 then 0
    else if p < 8.0 || k == 1 then (if k >= 2 then k - 1 else 0)
    else
      var kp := Trunc(p + 0.5);
      if k < kp && k <= 10 then (if kp > 10 then 10 else kp) - k else 0
  }

  /** The source's `expint`: the series or rational approximation of E_1 by Horner's
      rule, then the forward recurrence (p < 8 or k = 1), or else the backward
      recurrence from the asymptotic estimate at min(int(p + 0.5), 10), or that
      estimate alone. `steps` counts the recurrence steps taken. */
  method ExpInt(lib: Lib, k: int, p: real) returns (r: Option<real>, ghost steps: nat)
    ensures r == ExpIntValue(lib, k, p)
    ensures steps == RecurrenceSteps(k, p)
  {
    steps := 0;
    if k == 0 {
      if p < 0.0 {
        return None, steps;
      } else {
        return Some(Div(lib, lib.exp(-p), p)), steps;
      }
    }
    if p < 0.0 {
      return None, steps;
    } else if p == 0.0 {
      if k == 1 {
        return None, steps;
      } else {
        return Some(1.0 / (k - 1) as real), steps;
      }
    } else if p < 8.0 || k == 1 {
      var ze1: real;
      if p < 1.0 {
        ze1 := Horner(SeriesCoeffs, p);
        ze1 := ze1 - lib.log(p);
      } else {
        var znum, zden := MonicPair(NumeratorCoeffs, DenominatorCoeffs, p);
        RationalDivisorPositive(p);
        ze1 := lib.exp(-p) * znum / (zden * p);
      }
      assert ze1 == E1(lib, p);
      if k == 1 {
        return Some(ze1), steps;
      }
      var zek;
      zek, steps := ForwardSteps(lib, p, ze1, k);
      return Some(zek), steps;
    } else {
      var kp := Trunc(p + 0.5);
      if k < kp && k <= 10 {
        if kp > 10 {
          kp := 10;
        }
        var zek;
        zek, steps := BackwardSteps(lib, p, kp, Asymptotic(lib, kp as real, p), k);
        return Some(zek), steps;
      } else {
        return Some(Asymptotic(lib, k as real, p)), steps;
      }
    }
  }

  /** The forward loop `for i in range(2, k + 1)`: k - 1 steps from E_1 to E_k. */
  method ForwardSteps(lib: Lib, p: real, ze1: real, k: int) returns (zek: real, ghost steps: nat)
    ensures zek == Forward(lib, p, ze1, k)
    ensures steps == if k >= 2 then k - 1 else 0
  {
    zek := ze1;
    steps := 0;
    var i := 2;
    while i <= k
      invariant 2 <= i <= (if k >= 2 then k + 1 else 2)
      invariant zek == Forward(lib, p, ze1, i - 1)
      invariant steps == i - 2
    {
      zek := ForwardStep(lib, p, i, zek);
      i := i + 1;
      steps := steps + 1;
    }
  }

  /** The backward loop `for i in range(top - 1, k - 1, -1)`: top - k steps from the
      estimate s of E_top down to E_k. */
  method BackwardSteps(lib: Lib, p: real, top: int, s: real, k: int) returns (zek: real, ghost steps: nat)
    requires p != 0.0 && k <= top
    ensures zek == Backward(lib, p, top, s, k)
    ensures steps == top - k
  {
    zek := s;
    steps := 0;
    var i := top - 1;
    while i >= k
      invariant k - 1 <= i <= top - 1
      invariant zek == Backward(lib, p, top, s, i + 1)
      invariant steps == top - 1 - i
    {
      zek := BackwardStep(lib, p, i, zek);
      i := i - 1;
      steps := steps + 1;
    }
  }

  /** A downward step undoes an upward one: from k·E_(k+1) + p·E_k = e^-p (A&S 5.1.14)
      either neighbour determines the other. */
  lemma StepsInverse(lib: Lib, p: real, k: int, f: real)
    requires p != 0.0 && k >= 1
    ensures BackwardStep(lib, p, k, ForwardStep(lib, p, k + 1, f)) == f
  {
    var ep := lib.exp(-p);
    var g := ForwardStep(lib, p, k + 1, f);
    assert k as real * g == ep - p * f;
    assert ep - k as real * g == p * f;
  }

  /** Forward values satisfy A&S 5.1.14: k·E_(k+1) + p·E_k = e^-p for every k >= 1. */
  lemma ForwardSatisfiesRecurrence(lib: Lib, p: real, e1: real, k: int)
    requires k >= 1
    ensures k as real * Forward(lib, p, e1, k + 1) + p * Forward(lib, p, e1, k) == lib.exp(-p)
  {
    var f := Forward(lib, p, e1, k);
    assert Forward(lib, p, e1, k + 1) == (lib.exp(-p) - p * f) / k as real;
  }

  /** The backward recurrence inverts the forward one: started from the forward value
      at `top`, it reproduces the forward value at every k in 1..top. */
  lemma {:induction false} BackwardInvertsForward(lib: Lib, p: real, e1: real, top: int, k: int)
    requires p != 0.0 && 1 <= k <= top
    ensures Backward(lib, p, top, Forward(lib, p, e1, top), k) == Forward(lib, p, e1, k)
    decreases top - k
  {
    if k < top {
      BackwardInvertsForward(lib, p, e1, top, k + 1);
      StepsInverse(lib, p, k, Forward(lib, p, e1, k));
    }
  }
}
