/** The SIGMA reaction type: Sawada's fit of the electron-impact cross-section of H2,
    integrated against a Maxwellian as in JUEL-3858. */
module Sawada {
  import opened Floats
  import opened PyData
  import opened Wrappers

  /** Electron mass [kg] and the electron volt [J] the source uses. */
  const ElectronMass: real := 9.10938356e-31
  const ElectronVolt: real := 1.602e-19

  /** Python's `bool * x`: x when the condition holds, zero otherwise. */
  function Gate(b: bool, x: real): (g: real)
    ensures b ==> g == x
    ensures !b ==> g == 0.0
  {
    (if b then 1.0 else 0.0) * x
  }

  /** The fit's Psi: a triplet term (1 - W/E)^nu switched on by nu != 0 and a singlet
      term 1 - (W/E)^gamma switched on by gamma != 0. A switched-off term is zero: the
      source multiplies `False` by a power with exponent zero, which is 1. */
  function Psi(lib: Lib, E: real, W: real, gamma: real, nu: real): (psi: real)
    ensures nu == 0.0 && gamma == 0.0 ==> psi == 0.0
    ensures nu != 0.0 && gamma == 0.0 ==> psi == lib.pow(1.0 - Div(lib, W, E), nu)
    ensures nu == 0.0 && gamma != 0.0 ==> psi == 1.0 - lib.pow(Div(lib, W, E), gamma)
    ensures nu != 0.0 && gamma != 0.0
            ==> psi == lib.pow(1.0 - Div(lib, W, E), nu) + (1.0 - lib.pow(Div(lib, W, E), gamma))
  {
    Gate(nu != 0.0, lib.pow(1.0 - Div(lib, W, E), nu))
      + Gate(gamma != 0.0, 1.0 - lib.pow(Div(lib, W, E), gamma))
  }

  /** The fit sigma(E) for the seven coefficients [Eth, q0, A, Omega, W, gamma, nu]:
      zero below the threshold energy Eth. */
  function CrossSection(lib: Lib, E: real, c: seq<real>): (s: real)
    requires |c| == 7
    ensures E < c[0] ==> s == 0.0
  {
    var Eth, q0, A, Omega, W, gamma, nu := c[0], c[1], c[2], c[3], c[4], c[5], c[6];
    Gate(E >= Eth, q0 * Div(lib, A, W * W) * lib.pow(Div(lib, W, Eth), Omega)
                   * Psi(lib, E, W, gamma, nu))
  }

  /** Above the threshold the fit is q0·(A/W²)·(W/Eth)^Omega·Psi(E). */
  lemma CrossSectionAboveThreshold(lib: Lib, E: real, c: seq<real>)
    requires |c| == 7 && E >= c[0]
    ensures CrossSection(lib, E, c)
         == c[1] * Div(lib, c[2], c[4] * c[4]) * lib.pow(Div(lib, c[4], c[0]), c[3])
            * Psi(lib, E, c[4], c[5], c[6])
  {
  }

  /** The integrand R(x) = x·sigma(x·T)·e^-x over the reduced energy x = E/T. */
  function IntegrandAt(lib: Lib, c: seq<real>, T: real, x: real): real
    requires |c| == 7
  {
    x * CrossSection(lib, x * T, c) * lib.exp(-x)
  }

  /** R as the function handed to the quadrature. */
  function Integrand(lib: Lib, c: seq<real>, T: real): real -> real
    requires |c| == 7
  {
    x => IntegrandAt(lib, c, T, x)
  }

  /** The integrand vanishes wherever the energy x·T lies below the threshold. */
  lemma IntegrandBelowThreshold(lib: Lib, c: seq<real>, T: real, x: real)
    requires |c| == 7 && x * T < c[0]
    ensures Integrand(lib, c, T)(x) == 0.0
  {
    assert CrossSection(lib, x * T, c) == 0.0;
    assert IntegrandAt(lib, c, T, x) == 0.0;
  }

  /** The entries of a coefficient array that `coeffs[0]` and `*coeffs` see; a 0-d
      array has none (indexing it raises IndexError). */
  function Entries(coeffs: NdArray): (c: seq<real>)
    ensures coeffs.Vector? ==> c == coeffs.v
    ensures !coeffs.Vector? ==> c == []
  {
    if coeffs.Vector? then coeffs.v else []
  }

  /** The SIGMA rate <sigma v> = (4/√pi)·√(T·ev/(2·me))·∫_0^inf R(x) dx. The target energy
      E is read first (TypeError when absent), then `coeffs[0]` (IndexError when empty);
      unpacking the coefficients into the fit's seven parameters raises TypeError for
      any other count. */
  function SigmaRate(lib: Lib, coeffs: NdArray, T: real, E: Option<real>): (r: Result<real>)
    ensures E.None? ==> r == Raised(TypeError)
    ensures E.Some? && |Entries(coeffs)| == 0 ==> r == Raised(IndexError)
    ensures E.Some? && |Entries(coeffs)| != 0 && |Entries(coeffs)| != 7 ==> r == Raised(TypeError)
    ensures r.Ok? ==> r.value == Div(lib, 4.0, lib.sqrt(lib.pi))
                                 * lib.sqrt(T * ElectronVolt / (2.0 * ElectronMass))
                                 * lib.quad(Integrand(lib, Entries(coeffs), T))
  {
    if E.None? then Raised(TypeError)
    else
      var c := Entries(coeffs);
      if |c| == 0 then Raised(IndexError)
      else if |c| != 7 then Raised(TypeError)
      else
        Ok(Div(lib, 4.0, lib.sqrt(lib.pi)) * lib.sqrt(T * ElectronVolt / (2.0 * ElectronMass))
           * lib.quad(Integrand(lib, c, T)))
  }

  /** The SIGMA rate is defined exactly when E is given and there are seven
      coefficients; otherwise it names the exception. */
  lemma SigmaRateDefinedIff(lib: Lib, coeffs: NdArray, T: real, E: Option<real>)
    ensures SigmaRate(lib, coeffs, T, E).Ok? <==> E.Some? && coeffs.Vector? && |coeffs.v| == 7
    ensures SigmaRate(lib, coeffs, T, E).Raised? ==>
              SigmaRate(lib, coeffs, T, E).error
                == (if E.Some? && |Entries(coeffs)| == 0 then IndexError else TypeError)
  {
  }

  /** The rate depends on E only through its presence: the fit is evaluated at x·T. */
  lemma SigmaRateIgnoresTargetEnergy(lib: Lib, coeffs: NdArray, T: real, E1: real, E2: real)
    ensures SigmaRate(lib, coeffs, T, Some(E1)) == SigmaRate(lib, coeffs, T, Some(E2))
  {
  }
}
