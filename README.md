# CRUMPET reaction objects in Dafny

This project models the `REACTION` class of CRUMPET's collisional-radiative model
(`CRUM/reactions.py`). A reaction stores its stoichiometry, its fit coefficients and its
type tag. It renders itself as text (`print_reaction`) and evaluates its rate
coefficient (`rate`).

`rate` first picks the temperature from the reactant species. It then dispatches on the
type tag:

- RATE: an EIRENE polynomial fit in ln T, or in ln T and ln E, with a linear ramp below
  0.5 eV;
- COEFFICIENT: a constant;
- SIGMA: Sawada's cross-section fit integrated over a Maxwellian;
- ADAS: an interpolated table, clamped to its temperature range;
- UE: a UEDGE log-log table;
- APID: Janev's ionisation fits, with the exponential integral `expint` of
  Abramowitz & Stegun, gated on the reaction name.

Numbers are Dafny `real`s. The numerical library is a value `lib: Lib` of
uninterpreted functions:

- `exp`, `log`, `log10` and `sqrt`;
- non-integer powers and π;
- float formatting;
- the two scipy interpolators, evaluated at a point;
- `quad`;
- the IEEE result of a float division by zero.

Python exceptions on the evaluation path are results: `Raised(TypeError)`,
`Raised(IndexError)`, `Raised(ValueError)` and `Raised(ZeroDivisionError)`. The `None`
that `rate` falls through to is `Ok(None)`.

Files:

- `wrappers.dfy`: `Option`.
- `floats.dfy`: the numerical library, Python's `min`/`max`/`int`, and Horner's rule.
- `pydata.dfy`: Python values, numpy arrays by rank, exceptions, and string helpers.
- `printing.dfy`: the text of `print_reaction`.
- `fits.dfy`: the RATE, ADAS and UE branches.
- `sawada.dfy`: the SIGMA branch.
- `expint.dfy`: `expint` and `en`.
- `apid.dfy`: the APID `sigma`.
- `reactions.dfy`: the `Reaction` class (constructor, `PrintReaction`, `Rate`) and the
  type dispatch.

## Model

| member | source | states |
|---|---|---|
| `Reactions.Reaction.constructor` | CRUM/reactions.py:35-79 | The stoichiometry fields are the caller's S[0..3] as they were before the loop. String entries among S[0..3] lose their first four characters; other entries and S[4..] are untouched. S_r, S_V, S_g and S_e are S[4][0], S[4][1], S[4][-2] and S[4][-1]. The interpolator is the one the type needs. |
| `PyData.StripPrefix` | CRUM/reactions.py:45-46 | `s[4:]` keeps a list as it is. On a string of length n it leaves max(n-4, 0) characters. |
| `PyData.StripPrefixRemovesTag` | CRUM/reactions.py:46 | Stripping a four-character tag from tag+s gives back s. |
| `Reactions.Reaction.PrintReaction` | CRUM/reactions.py:86-94 | The string built by the two appending loops is `Rendered`. IndexError is raised when a multiplier list is shorter than its species list. |
| `Reactions.Reaction.AppendSide` | CRUM/reactions.py:88-92 | One appending loop adds exactly the pieces of its side. It raises IndexError when the multipliers run out. |
| `Printing.Prefix` | CRUM/reactions.py:89 | A multiplier of 1 is omitted. Any other multiplier is written followed by `*`. |
| `Printing.RenderedLayout` | CRUM/reactions.py:86-94 | The text is `database_name: `, then the reactants joined by ` + `, then `=> `, then the fragments joined by ` + `. Each non-empty side is followed by one space. |
| `Printing.SideIsJoined` | CRUM/reactions.py:88-92 | The loop's pieces (factor, space, `+ ` except after the last) equal the factors joined by ` + ` plus a trailing space. |
| `Printing.RenderedDissociation` | CRUM/reactions.py:86-94 | A concrete reaction renders as `H2VIBR_2.2.5: e + H2 => e + H + H `. |
| `Printing.RenderedMultiplier` | CRUM/reactions.py:89-92 | A numeric multiplier 2 that formats as "2" renders as `2*H`, and a multiplier of 1 is left out. |
| `Reactions.SpeciesTemperature` | CRUM/reactions.py:114-116 | T is Te if 'e' is a reactant, else Ti if 'p' is, else 0. |
| `Reactions.Reaction.ElectronsSelectTe` | CRUM/reactions.py:114-116 | With an electron among the reactants the rate does not depend on Ti, even when a proton is also present. |
| `Reactions.Reaction.Rate` | CRUM/reactions.py:113-349 | `rate` equals the dispatch `RateOf`, over the species rule and the six branches. |
| `Reactions.Reaction.RateSomeOnlyForKnownTypes` | CRUM/reactions.py:124-349 | A value is returned only for RATE, COEFFICIENT, SIGMA, ADAS, UE, or APID under the IONIZ gate. |
| `Reactions.Reaction.RateNone` | CRUM/reactions.py:328-349 | A non-ionization APID reaction returns None. So does an unknown type tag. |
| `Reactions.Reaction.CoefficientReturnsTable` | CRUM/reactions.py:150-152 | COEFFICIENT returns the coefficient array unchanged. |
| `Fits.FitArgument` | CRUM/reactions.py:127-132 | The fit argument Tuse is at least 0.5. It equals T when T >= 0.5. |
| `Fits.EireneFit` | CRUM/reactions.py:124-148 | The RATE computation equals `RateFit`: the ramp factor times exp of the fit sum, or the exception the sum raised. |
| `Fits.GridLoop` | CRUM/reactions.py:134-138 | The nested 9×9 loop raises IndexError on an empty or too small table, and TypeError when E is None and the table is non-empty. Otherwise it is the double sum Σ c[i,j]·ln(Tuse)^i·ln(E)^j over i, j < 9. |
| `Fits.RowLoop` | CRUM/reactions.py:137-138 | The inner loop over one row adds Σ_{j<9} c[i,j]·ti·ln(E)^j to the running sum. It raises IndexError on an empty or short row and TypeError when E is None, in the order the first iteration meets them. |
| `Fits.VectorLoop` | CRUM/reactions.py:140-143 | The 9-term loop raises IndexError when there are fewer than nine coefficients. Otherwise it is Σ c[i]·ln(Tuse)^i. |
| `Fits.GridFitNested` | CRUM/reactions.py:136-138 | The 2-D sum is a polynomial in ln Tuse whose i-th coefficient is row i's polynomial in ln E (`RowPolys`, whose j-th entry is Σ_k c[j,k]·ln(E)^k). |
| `Fits.RateRampBelowFloor` | CRUM/reactions.py:127-148 | Below 0.5 eV the RATE result is (T/0.5) times the result at 0.5 eV, and an exception is raised at one exactly when at the other. |
| `Fits.RateUnknownRank` | CRUM/reactions.py:145-148 | A coefficient array of rank other than 1 or 2 yields the ramp factor times exp(0). |
| `Fits.RateVectorFit` | CRUM/reactions.py:140-148 | A 1-D fit is defined exactly when there are at least nine coefficients. Its value is the ramp times exp of the polynomial in ln max(T, 0.5). |
| `Sawada.Psi` | CRUM/reactions.py:166 | Ψ for each of the four exponent cases: 0 when ν = γ = 0, only the triplet term (1 - W/E)^ν when γ = 0, only the singlet term 1 - (W/E)^γ when ν = 0, and their sum when both are non-zero. |
| `Sawada.CrossSection` | CRUM/reactions.py:165-167 | The Sawada cross-section is zero below the threshold Eth. |
| `Sawada.CrossSectionAboveThreshold` | CRUM/reactions.py:167 | Above the threshold it is q0·(A/W²)·(W/Eth)^Ω·Ψ. |
| `Sawada.IntegrandBelowThreshold` | CRUM/reactions.py:169-171 | The integrand x·σ(xT)·e^-x vanishes where xT lies below the threshold. |
| `Sawada.SigmaRate` | CRUM/reactions.py:154-174 | The SIGMA branch checks in source order: TypeError when E is None (line 160), then IndexError when there are no coefficients (line 163), then TypeError when there are not exactly seven (the unpacking at line 171). Otherwise the rate is (4/√π)·√(T·ev/(2·me))·∫R, with ev = 1.602e-19 and me = 9.10938356e-31. |
| `Sawada.SigmaRateDefinedIff` | CRUM/reactions.py:154-174 | SIGMA gives a value exactly when E is given and there are seven coefficients. Otherwise it raises TypeError (E is None, or a wrong count) or IndexError (no coefficients). |
| `Sawada.SigmaRateIgnoresTargetEnergy` | CRUM/reactions.py:160-174 | The value depends on E only through E being present. |
| `Fits.AdasArgument` | CRUM/reactions.py:179-185 | When Tarr[0] ≤ Tarr[-1] the clamped argument lies in [Tarr[0], Tarr[-1]]. It equals Tarr[0] below the grid, Tarr[-1] above it, and T inside. When Tarr[-1] < Tarr[0] it is always Tarr[-1]. |
| `Reactions.Reaction.AdasBranch` | CRUM/reactions.py:177-190 | The ADAS steps equal `AdasRate`: ZeroDivisionError for omegaj = 0, ValueError outside the table (which the clamp never reaches), otherwise the ADAS formula. |
| `Fits.AdasDefinedIffWeightNonzero` | CRUM/reactions.py:179-190 | On any grid the ADAS rate fails exactly when omegaj = 0: the clamped argument never leaves the table's range, so interp1d's ValueError cannot arise. |
| `Fits.AdasFlatBelow` | CRUM/reactions.py:179-190 | Every T below Tarr[0] gives the rate at Tarr[0]; the ramp factor is never applied. |
| `Fits.AdasFlatAbove` | CRUM/reactions.py:185-190 | Every T above Tarr[-1] gives the rate at Tarr[-1]. |
| `Fits.AdasInverseInWeight` | CRUM/reactions.py:190 | The ADAS rate times omegaj is the rate at omegaj = 1. |
| `Reactions.Reaction.AdasClamped` | CRUM/reactions.py:177-190 | For an ADAS reaction, `rate` fails only for omegaj = 0. Below the grid it equals the rate at Tarr[0]. |
| `Fits.TemperatureIndex` | CRUM/reactions.py:195 | jt lies in [0, 60] whatever log10 returns. |
| `Fits.DensityIndex` | CRUM/reactions.py:196 | jn lies in [0, 15] whatever log10 returns. |
| `Fits.UeMultiplier` | CRUM/reactions.py:200-201 | The multiplier is 6.242e11 exactly for RECRAD and IONIZRAD, and 1 otherwise. |
| `Fits.UeTemperatureSaturates` | CRUM/reactions.py:195-202 | Every Te whose scaled log reaches 60 gives the same UE rate. |
| `Fits.UeRate` | CRUM/reactions.py:192-202 | UE raises TypeError exactly when ne is None. Otherwise it is the interpolant at (jn, jt), with jn clamped to [0, 15] and jt to [0, 60], times the RECRAD/IONIZRAD multiplier. |
| `Fits.UeMultiplierApplied` | CRUM/reactions.py:200-202 | The UE rate is the table value for every name except RECRAD and IONIZRAD. For those two it is the table value times exactly 6.242e11. |
| `Reactions.Reaction.UeOrientation` | CRUM/reactions.py:72-76 | The UE interpolator's x axis runs over the column indices 0, 1, …, cols-1 and its y axis over the row indices 0, 1, …, rows-1. `rate` evaluates it at (jn, jt), density first, with jt from Te even when the species rule selected Ti. |
| `PyData.HeadBeforeUnderscore` | CRUM/reactions.py:328 | `split('_')[0]` is an underscore-free prefix. It is the whole string or is followed by an underscore. |
| `PyData.Upper` | CRUM/reactions.py:328 | `upper()` keeps the length and maps each character. |
| `Reactions.IonizGateIff` | CRUM/reactions.py:328 | The APID gate holds exactly when the first five characters upper-case to IONIZ and the name ends there or continues with `_`. |
| `Reactions.IonizGateAcceptsSuffix` | CRUM/reactions.py:328 | 'ioniz_x' passes the gate: case is ignored and the underscore ends the head. |
| `Reactions.IonizGateRejectsLongerWord` | CRUM/reactions.py:328 | 'IONIZATION' does not pass the gate. |
| `Apid.ApidSigma` | CRUM/reactions.py:206-322 | The nested `sigma` equals `ApidValue`: IndexError with no coefficients, the n ≤ 3 expansion, or the n > 3 closed form. |
| `Apid.LowNSigma` | CRUM/reactions.py:270-292 | The n ≤ 3 path equals `LowN`: IndexError with fewer than seven coefficients, otherwise the expansion. |
| `Apid.CollectExpInts` | CRUM/reactions.py:275-277 | `zeint` has six entries, and entry i is `expint(i+1, I/T)`, None included where `expint` returns None. |
| `Apid.WeightList` | CRUM/reactions.py:279-284 | The five appends build exactly `Weights(b)`. |
| `Apid.Weights` | CRUM/reactions.py:279-284 | The five zmul weights sum to b[0]. |
| `Apid.WeightsAreBinomial` | CRUM/reactions.py:279-284 | The k-th weight is (-1)^k·(k+1)·Σ_{m ≥ k} C(m+1, k+1)·b[m]. |
| `Apid.Accumulate` | CRUM/reactions.py:286-287 | zi1 is Σ zmul[i]·zeint[i+1] when E_2..E_6 are all defined. Otherwise it raises TypeError. |
| `Apid.Expansion` | CRUM/reactions.py:286-292 | zi2 = A·E_1 and the rate is 6.692e7·√T·zi3·(zi1 + zi2) with zi3 = 1e-13/(I·T). It raises TypeError when any of E_1..E_6 is None. |
| `Apid.LowNFailsIffArgumentNotPositive` | CRUM/reactions.py:270-292 | With seven coefficients and n ≤ 3 the expansion raises TypeError exactly when the modelled I/T is ≤ 0. This holds for T ≠ 0; at T = 0 see `ExpIntegral.ExpIntValue` under "## Left out". |
| `Apid.HighN` | CRUM/reactions.py:296-318 | The n > 3 closed form: its only exception is TypeError, raised exactly when E_1 is None at I/T or at zrn + I/T. E_0 and E_2 never fail where E_1 succeeds. |
| `Apid.HighNFailsIffArgumentNotPositive` | CRUM/reactions.py:296-318 | For n > 3 the closed form fails exactly when I/T or zrn + I/T is not positive. This holds for T ≠ 0; at T = 0 see `ExpIntegral.ExpIntValue` under "## Left out". |
| `ExpIntegral.ExpIntValue` | CRUM/reactions.py:219-231 | `expint` returns a number exactly when p > 0, or when p = 0 and k ≠ 1. It returns None for every p < 0. |
| `ExpIntegral.Asymptotic` | CRUM/reactions.py:216-217 | `en(n, z)`: every correction term carries a factor n, so `en(0, z)` is exactly E_0(z) = e^-z/z. |
| `ExpIntegral.ExpIntClosedForms` | CRUM/reactions.py:219-231 | E_0(p) = e^-p/p for p > 0, and E_k(0) = 1/(k-1) for k ≥ 2. |
| `ExpIntegral.ExpInt` | CRUM/reactions.py:211-264 | The imperative `expint` equals `ExpIntValue`. It takes `RecurrenceSteps(k, p)` steps: k-1 forward steps when p < 8 or k = 1; min(int(p+0.5), 10) - k backward steps when k < int(p+0.5) and k ≤ 10; none otherwise. |
| `ExpIntegral.ForwardSteps` | CRUM/reactions.py:251-254 | The forward loop computes `Forward` in exactly k-1 steps. |
| `ExpIntegral.BackwardSteps` | CRUM/reactions.py:257-262 | The backward loop computes `Backward` in exactly top-k steps. |
| `ExpIntegral.ForwardSatisfiesRecurrence` | CRUM/reactions.py:251-253 | The forward values satisfy A&S 5.1.14: k·E_{k+1} + p·E_k = e^-p. |
| `ExpIntegral.StepsInverse` | CRUM/reactions.py:251-261 | One backward step undoes one forward step. |
| `ExpIntegral.BackwardInvertsForward` | CRUM/reactions.py:257-262 | Running backward from the forward value at `top` gives back the forward value at every k ≤ top. |
| `ExpIntegral.RationalDivisorPositive` | CRUM/reactions.py:241-246 | The rational approximation's divisor is positive for p > 0. |
| `Floats.Horner` | CRUM/reactions.py:235-237 | The Horner loop evaluates the ascending polynomial Σ c[i]·p^i. |
| `Floats.MonicPair` | CRUM/reactions.py:241-245 | The joint loop evaluates both monic polynomials. |

## Left out

- Floating point: every number is an exact real.
  - Rounding, NaN and infinities are not modelled.
  - A float division by zero yields the uninterpreted `lib.byZero(a)`. The model treats `False * x` as 0 even when x is infinite.
- The Python-level ZeroDivisionError is modelled only for `1/omegaj`. The other quotients divide numpy values, or T in the ADAS branch (which is zero only when Tarr[0] ≤ 0).
- `scipy.integrate.quad` (the SIGMA integral) is an uninterpreted function of the integrand.
- The interpolators built by `interp2d` and `interp1d` are evaluated through uninterpreted functions of their tables.
  - The one exception is interp1d's ValueError outside the table's range. `Fits.AdasRate` models it, but the clamp keeps the argument inside the range, so `rate` never raises it.
- `Reactions.Reaction.constructor`: construction failures are preconditions. The model does not raise for them. They are:
  - an S shorter than five, or an S[4] shorter than two;
  - a UE table that is not 2-D or is smaller than 2×2;
  - ADAS arrays that are not 1-D, differ in length, or have fewer than two points.
  - The model also requires a 0-d or 1-d coefficient array for SIGMA and APID, whose Python behaviour on tables is not modelled.
- A zero coefficient in a SIGMA or APID evaluation yields IEEE values (`byZero`), not an exception. This follows numpy.
- Float formatting of multipliers in `print_reaction` is the uninterpreted `lib.fmt`.
  - Numbers are reals, so the model does not tell an int multiplier from a float one. Python prints 2 as "2" and 2.0 as "2.0"; both are `Num(2.0)` here, and `Printing.RenderedMultiplier` assumes `fmt(2.0)` is "2".
- `upper()` is modelled for ASCII letters only.
- The diagnostic `print` calls ('Unknown fit', 'Unknown type') are not modelled. Only their fall-through values are.
- Not modelled:
  - the matplotlib import;
  - the commented-out multiplier parsing and plotting;
  - the unused SIGMA helpers VH2, Ve, mr and vth, beyond the TypeError that `E=None` causes at line 160;
  - the unused APID integrand `R`;
  - the unreachable string return of `expint`.
- `Apid.LowNSigma`: the source calls `expint` six times between reading coeffs[1] and coeffs[6]. A short coefficient list raises IndexError whichever read fails first. The model checks the length before the calls. For a finite I/T (T ≠ 0) this changes nothing observable; at T = 0 Python raises OverflowError inside `expint` before the IndexError (see `ExpIntegral.ExpIntValue`).
- `ExpIntegral.ExpInt`, `ExpIntegral.ExpIntValue`: the model has no OverflowError and no infinite argument; `ExpIntValue` is total on reals. In Python, `expint(k, p)` with k ∉ {0, 1} raises OverflowError at p = inf (at `kp=int(p+0.5)`, line 257) and ValueError at p = nan. `rate` reaches this for an APID reaction at T = 0, where I/T is inf: the n ≤ 3 path raises in `expint(2, zarg)` and the n > 3 path in `expint(2, zyn)`. The model instead evaluates at the uninterpreted `lib.byZero(I)` and returns Ok or TypeError. `Apid.LowN`, `Apid.HighN` and their rows hold only for T ≠ 0 in this respect.
- ADAS: the source computes a ramp factor T/Tarr[0] below the grid and never uses it. The model follows the code: the rate is flat below the grid.
- `fc_mapping.py` and `effective_mol_cx.py` are not part of this model. One is file I/O and an interactive plot; the other is a driver script for the solver.
