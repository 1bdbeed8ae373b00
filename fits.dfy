/** The tabulated and polynomial fit families of `rate`: the EIRENE polynomial (RATE),
    the ADAS table over a temperature grid and the UEDGE table over log-density and
    log-temperature indices (UE), with the clamps each applies to its arguments. */
module Fits {
  import opened Wrappers
  import opened Floats
  import opened PyData

  // ---------------------------------------------------------------- RATE

  /** The fit argument: temperatures below 0.5 eV are raised to 0.5 eV. */
  function FitArgument(T: real): (t: real)
    ensures t >= 0.5
    ensures T >= 0.5 ==> t == T
  {
    if T < 0.5 then 0.5 else T
  }

  /** The factor `coeff` that ramps the result linearly to zero below 0.5 eV. */
  function Ramp(T: real): (c: real)
    ensures T >= 0.5 ==> c == 1.0
  {
    if T < 0.5 then T / 0.5 else 1.0
  }

  /** Σ_{j < |row|} row[j]·ti·le^j, summed in the source's order: one row of the 2-D fit
      with ti = ln(T)^i already raised to the row's power. */
  function RowFit(row: seq<real>, ti: real, le: real): real
  {
    if |row| == 0 then 0.0
    else RowFit(row[..|row| - 1], ti, le) + row[|row| - 1] * ti * Pow(le, |row| - 1)
  }

  /** Appending an entry to a row adds its term at the next power of le. */
  lemma RowFitSnoc(row: seq<real>, c: real, ti: real, le: real, k: nat)
    requires k == |row|
    ensures RowFit(row + [c], ti, le) == RowFit(row, ti, le) + c * ti * Pow(le, k)
  {
    assert (row + [c])[..|row|] == row;
  }

  /** Σ_{i < |rows|} Σ_{j < m} rows[i][j]·lt^i·le^j, row by row as the nested loops add. */
  function GridFit(rows: seq<seq<real>>, lt: real, le: real, m: nat): real
    requires forall k :: 0 <= k < |rows| ==> m <= |rows[k]|
  {
    if |rows| == 0 then 0.0
    else GridFit(rows[..|rows| - 1], lt, le, m) + RowFit(rows[|rows| - 1][..m], Pow(lt, |rows| - 1), le)
  }

  /** The exponent `ret` of the RATE branch at lt = ln(Tuse). A 2-D array is read at
      [0, 0] (IndexError if empty) before ln E is taken (TypeError if E is None), then
      up to [8, 8]; a 1-D array up to [8]; any other rank leaves the sum at zero. */
  function FitSum(lib: Lib, coeffs: NdArray, lt: real, E: Option<real>): Result<real>
    requires WellShaped(coeffs)
  {
    match coeffs
    case Matrix(cols, rows) =>
      if |rows| == 0 || cols == 0 then Raised(IndexError)
      else if E.None? then Raised(TypeError)
      else if |rows| < 9 || cols < 9 then Raised(IndexError)
      else Ok(GridFit(rows[..9], lt, lib.log(E.value), 9))
    case Vector(v) =>
      if |v| < 9 then Raised(IndexError) else Ok(PolySum(v[..9], lt))
    case Scalar(_) => Ok(0.0)
    case Tensor(_, _) => Ok(0.0)
  }

  /** The RATE branch: `coeff * exp(ret)` with the ramp factor and the fit at the
      raised argument. */
  function RateFit(lib: Lib, coeffs: NdArray, T: real, E: Option<real>): Result<real>
    requires WellShaped(coeffs)
  {
    Scaled(lib, Ramp(T), FitSum(lib, coeffs, lib.log(FitArgument(T)), E))
  }

  /** `coeff * exp(ret)`, passing on an exception raised while computing ret. */
  function Scaled(lib: Lib, coeff: real, sum: Result<real>): (r: Result<real>)
    ensures r.Raised? <==> sum.Raised?
    ensures r.Raised? ==> r.error == sum.error
  {
    if sum.Raised? then Raised(sum.error) else Ok(coeff * lib.exp(sum.value))
  }

  /** The EIRENE fit as the source computes it: the ramp, then the loops over the
      coefficient array that accumulate `ret`, then `coeff * exp(ret)`. */
  method EireneFit(lib: Lib, coeffs: NdArray, T: real, E: Option<real>) returns (r: Result<real>)
    requires WellShaped(coeffs)
    ensures r == RateFit(lib, coeffs, T, E)
  {
    var Tuse, coeff;
    if T < 0.5 {
      Tuse := 0.5;
      coeff := T / Tuse;
    } else {
      Tuse := T;
      coeff := 1.0;
    }
    var lt := lib.log(Tuse);
    var ret: Result<real>;
    match coeffs {
      case Matrix(cols, rows) =>
        ret := GridLoop(lib, cols, rows, lt, E);
      case Vector(v) =>
        ret := VectorLoop(v, lt);
      case _ =>
        // 'Unknown fit': the sum stays at its initial zero.
        ret := Ok(0.0);
    }
    assert Tuse == FitArgument(T) && coeff == Ramp(T);
    assert ret == FitSum(lib, coeffs, lt, E);
    return Scaled(lib, coeff, ret);
  }

  /** The 1-D accumulation `for i in range(9): ret += coeffs[i]*(log(Tuse)**i)`. */
  method VectorLoop(v: seq<real>, lt: real) returns (r: Result<real>)
    ensures r == (if |v| < 9 then Raised(IndexError) else Ok(PolySum(v[..9], lt)))
  {
    var ret := 0.0;
    for i := 0 to 9
      invariant i <= |v|
      invariant ret == PolySum(v[..i], lt)
    {
      if i >= |v| {
        return Raised(IndexError);
      }
      assert v[..i + 1][..i] == v[..i];
      ret := ret + v[i] * Pow(lt, i);
    }
    return Ok(ret);
  }

  /** The 2-D accumulation `for i in range(9): for j in range(9): ret += ...`, which
      fails at the first index outside the array or at the first ln E of a None. */
  method GridLoop(lib: Lib, cols: nat, rows: seq<seq<real>>, lt: real, E: Option<real>)
    returns (r: Result<real>)
    requires forall k :: 0 <= k < |rows| ==> |rows[k]| == cols
    ensures r == (if |rows| == 0 || cols == 0 then Raised(IndexError)
                  else if E.None? then Raised(TypeError)
                  else if |rows| < 9 || cols < 9 then Raised(IndexError)
                  else Ok(GridFit(rows[..9], lt, lib.log(E.value), 9)))
  {
    var ret := 0.0;
    ghost var le := if E.Some? then lib.log(E.value) else 0.0;
    for i := 0 to 9
      invariant i <= |rows|
      invariant i > 0 ==> cols >= 9 && E.Some?
      invariant ret == GridFit(rows[..i], lt, le, 9)
    {
      if i >= |rows| {
        return Raised(IndexError);
      }
      var row := RowLoop(lib, ret, rows[i], Pow(lt, i), E);
      if row.Raised? {
        return row;
      }
      ret := row.value;
      assert rows[..i + 1][..i] == rows[..i];
      GridFitUnfold(rows[..i + 1], lt, le, 9);
    }
    return Ok(ret);
  }

  /** The inner loop `for j in range(9): ret += coeffs[i, j]*ti*(log(E)**j)` over one
      row, adding to the running sum ret0: IndexError at the first column outside the
      row, TypeError at the first ln E of a None. */
  method RowLoop(lib: Lib, ret0: real, row: seq<real>, ti: real, E: Option<real>)
    returns (r: Result<real>)
    ensures r == (if |row| == 0 then Raised(IndexError)
                  else if E.None? then Raised(TypeError)
                  else if |row| < 9 then Raised(IndexError)
                  else Ok(ret0 + RowFit(row[..9], ti, lib.log(E.value))))
  {
    var ret := ret0;
    for j := 0 to 9
      invariant j <= |row|
      invariant j > 0 ==> E.Some?
      invariant j > 0 ==> ret == ret0 + RowFit(row[..j], ti, lib.log(E.value))
      invariant j == 0 ==> ret == ret0
    {
      if j >= |row| {
        return Raised(IndexError);
      }
      if E.None? {
        return Raised(TypeError);
      }
      assert row[..j + 1] == row[..j] + [row[j]];
      RowFitSnoc(row[..j], row[j], ti, lib.log(E.value), j);
      ret := ret + row[j] * ti * Pow(lib.log(E.value), j);
    }
    return Ok(ret);
  }

  /** Below 0.5 eV the RATE result is the result at 0.5 eV scaled by T/0.5, with the
      same exception if one is raised. */
  lemma RateRampBelowFloor(lib: Lib, coeffs: NdArray, T: real, E: Option<real>)
    requires WellShaped(coeffs) && T < 0.5
    ensures RateFit(lib, coeffs, T, E).Raised? <==> RateFit(lib, coeffs, 0.5, E).Raised?
    ensures RateFit(lib, coeffs, T, E).Ok? ==>
              RateFit(lib, coeffs, T, E).value == (T / 0.5) * RateFit(lib, coeffs, 0.5, E).value
  {
    assert FitArgument(T) == FitArgument(0.5);
  }

  /** A coefficient array of rank other than 1 or 2 contributes nothing: the result is
      the ramp factor times e^0. */
  lemma RateUnknownRank(lib: Lib, coeffs: NdArray, T: real, E: Option<real>)
    requires WellShaped(coeffs) && Rank(coeffs) != 1 && Rank(coeffs) != 2
    ensures RateFit(lib, coeffs, T, E).Ok?
    ensures RateFit(lib, coeffs, T, E).value == Ramp(T) * lib.exp(0.0)
  {
  }

  /** When the 1-D fit is defined it is the polynomial in ln(max(T, 0.5)) with the first
      nine coefficients in ascending order; it is defined exactly when there are nine. */
  lemma RateVectorFit(lib: Lib, v: seq<real>, T: real, E: Option<real>)
    ensures RateFit(lib, Vector(v), T, E).Ok? <==> |v| >= 9
    ensures |v| >= 9 ==> RateFit(lib, Vector(v), T, E).value
                         == Ramp(T) * lib.exp(PolySum(v[..9], lib.log(FitArgument(T))))
  {
  }

  /** One row of the 2-D fit is ti times the polynomial in le of the row's entries. */
  lemma {:induction false} RowFitFactors(row: seq<real>, ti: real, le: real)
    ensures RowFit(row, ti, le) == ti * PolySum(row, le)
  {
    if |row| > 0 {
      RowFitFactors(row[..|row| - 1], ti, le);
      ScaleStep(ti, PolySum(row[..|row| - 1], le), row[|row| - 1], Pow(le, |row| - 1), PolySum(row, le));
    }
  }

  /** The algebra of factoring ti out of one more term: with s = a + c·p,
      ti·a + c·ti·p = ti·s. */
  lemma ScaleStep(ti: real, a: real, c: real, p: real, s: real)
    requires s == a + c * p
    ensures ti * a + c * ti * p == ti * s
  {
  }

  /** The per-row polynomials in le of the first m entries of each row. */
  function RowPolys(rows: seq<seq<real>>, le: real, m: nat): (ps: seq<real>)
    requires forall k :: 0 <= k < |rows| ==> m <= |rows[k]|
    ensures |ps| == |rows|
    ensures forall j :: 0 <= j < |rows| ==> ps[j] == PolySum(rows[j][..m], le)
  {
    if |rows| == 0 then []
    else RowPolys(rows[..|rows| - 1], le, m) + [PolySum(rows[|rows| - 1][..m], le)]
  }

  /** The 2-D fit is a polynomial in lt whose i-th coefficient is the polynomial in le
      of row i: Σ_i lt^i·(Σ_j c[i][j]·le^j). */
  lemma {:induction false} GridFitNested(rows: seq<seq<real>>, lt: real, le: real, m: nat)
    requires forall k :: 0 <= k < |rows| ==> m <= |rows[k]|
    ensures GridFit(rows, lt, le, m) == PolySum(RowPolys(rows, le, m), lt)
  {
    if |rows| > 0 {
      GridFitNested(rows[..|rows| - 1], lt, le, m);
      GridFitLastRow(rows, lt, le, m);
      RowPolysLastRow(rows, lt, le, m);
    }
  }

  /** The last row of the 2-D fit contributes lt^n times its polynomial in le. */
  lemma GridFitLastRow(rows: seq<seq<real>>, lt: real, le: real, m: nat)
    requires |rows| > 0 && forall k :: 0 <= k < |rows| ==> m <= |rows[k]|
    ensures GridFit(rows, lt, le, m)
         == GridFit(rows[..|rows| - 1], lt, le, m)
            + Pow(lt, |rows| - 1) * PolySum(rows[|rows| - 1][..m], le)
  {
    GridFitUnfold(rows, lt, le, m);
    RowFitFactors(rows[|rows| - 1][..m], Pow(lt, |rows| - 1), le);
  }

  /** The 2-D fit over n + 1 rows is the fit over the first n plus the last row. */
  lemma GridFitUnfold(rows: seq<seq<real>>, lt: real, le: real, m: nat)
    requires |rows| > 0 && forall k :: 0 <= k < |rows| ==> m <= |rows[k]|
    ensures GridFit(rows, lt, le, m)
         == GridFit(rows[..|rows| - 1], lt, le, m) + RowFit(rows[|rows| - 1][..m], Pow(lt, |rows| - 1), le)
  {
  }

  /** The polynomial in lt over all rows adds the last row's polynomial at lt^n. */
  lemma RowPolysLastRow(rows: seq<seq<real>>, lt: real, le: real, m: nat)
    requires |rows| > 0 && forall k :: 0 <= k < |rows| ==> m <= |rows[k]|
    ensures PolySum(RowPolys(rows, le, m), lt)
         == PolySum(RowPolys(rows[..|rows| - 1], le, m), lt)
            + PolySum(rows[|rows| - 1][..m], le) * Pow(lt, |rows| - 1)
  {
    var init, q := RowPolys(rows[..|rows| - 1], le, m), PolySum(rows[|rows| - 1][..m], le);
    assert RowPolys(rows, le, m) == init + [q];
    PolySumSnoc(init, q, lt, |rows| - 1);
  }

  // ---------------------------------------------------------------- ADAS

  /** The ADAS interpolation argument: raised to Tarr[0] below it, then capped at
      Tarr[-1]. */
  function AdasArgument(T: real, first: real, last: real): (u: real)
    ensures first <= last ==> first <= u <= last
    ensures last < first ==> u == last
    ensures first <= last && T < first ==> u == first
    ensures T >= last ==> u == last
    ensures first <= T <= last ==> u == T
  {
    Min(if T < first then first else T, last)
  }

  /** The ADAS branch, evaluated left to right: `1/omegaj` raises ZeroDivisionError for a
      zero weight; the interpolant raises ValueError outside the grid's range; otherwise
      2.1716e-8·(1/omegaj)·√(13.6048/u)·f(u) at the clamped argument u. The ramp factor
      the source computes for T < Tarr[0] is never used. */
  function AdasRate(lib: Lib, grid: seq<real>, values: seq<real>, T: real, omegaj: real): Result<real>
    requires |grid| >= 1
  {
    if omegaj == 0.0 then Raised(ZeroDivisionError)
    else
      var u := AdasArgument(T, grid[0], grid[|grid| - 1]);
      if u < Lowest(grid) || u > Highest(grid) then Raised(ValueError)
      else Ok(AdasFormula(lib, grid, values, u, 1.0 / omegaj))
  }

  /** The ADAS formula at argument u with statistical-weight factor w = 1/omegaj. */
  function AdasFormula(lib: Lib, grid: seq<real>, values: seq<real>, u: real, w: real): real
  {
    2.1716e-8 * w * lib.sqrt(Div(lib, 13.6048, u)) * lib.interp1d(grid, values, u)
  }

  /** The clamped argument is always Tarr[0], Tarr[-1] or a T between them, so it never
      leaves the interpolant's range on any grid: the only exception is a zero weight. */
  lemma AdasDefinedIffWeightNonzero(lib: Lib, grid: seq<real>, values: seq<real>, T: real, omegaj: real)
    requires |grid| >= 1
    ensures AdasRate(lib, grid, values, T, omegaj).Ok? <==> omegaj != 0.0
  {
    var u := AdasArgument(T, grid[0], grid[|grid| - 1]);
    assert Lowest(grid) <= grid[0] <= Highest(grid);
    assert Lowest(grid) <= grid[|grid| - 1] <= Highest(grid);
    assert Lowest(grid) <= u <= Highest(grid);
  }

  /** Below the grid the ADAS rate is flat: the source's ramp factor is never applied. */
  lemma AdasFlatBelow(lib: Lib, grid: seq<real>, values: seq<real>, T: real, omegaj: real)
    requires |grid| >= 1 && T < grid[0]
    ensures AdasRate(lib, grid, values, T, omegaj) == AdasRate(lib, grid, values, grid[0], omegaj)
  {
  }

  /** Above the grid the ADAS rate is flat at its value at Tarr[-1]. */
  lemma AdasFlatAbove(lib: Lib, grid: seq<real>, values: seq<real>, T: real, omegaj: real)
    requires |grid| >= 1 && T >= grid[|grid| - 1]
    ensures AdasRate(lib, grid, values, T, omegaj)
         == AdasRate(lib, grid, values, grid[|grid| - 1], omegaj)
  {
  }

  /** The ADAS rate is inversely proportional to the statistical weight omegaj. */
  lemma AdasInverseInWeight(lib: Lib, grid: seq<real>, values: seq<real>, T: real, omegaj: real)
    requires |grid| >= 1 && omegaj != 0.0
    ensures AdasRate(lib, grid, values, T, omegaj).Ok? <==> AdasRate(lib, grid, values, T, 1.0).Ok?
    ensures AdasRate(lib, grid, values, T, omegaj).Ok? ==>
              AdasRate(lib, grid, values, T, omegaj).value * omegaj
                == AdasRate(lib, grid, values, T, 1.0).value
  {
    var u := AdasArgument(T, grid[0], grid[|grid| - 1]);
    var k := 2.1716e-8 * lib.sqrt(Div(lib, 13.6048, u)) * lib.interp1d(grid, values, u);
    assert AdasFormula(lib, grid, values, u, 1.0 / omegaj) == k * (1.0 / omegaj);
    assert AdasFormula(lib, grid, values, u, 1.0) == k;
  }

  // ---------------------------------------------------------------- UE

  /** jt = max(0, min(10·(log10(Te + 1e-99) + 1.2), 60)). */
  function TemperatureIndex(lib: Lib, Te: real): (jt: real)
    ensures 0.0 <= jt <= 60.0
  {
    Max(0.0, Min(10.0 * (lib.log10(Te + 1e-99) + 1.2), 60.0))
  }

  /** jn = max(0, min(2·(log10(ne) - 10), 15)). */
  function DensityIndex(lib: Lib, ne: real): (jn: real)
    ensures 0.0 <= jn <= 15.0
  {
    Max(0.0, Min(2.0 * (lib.log10(ne) - 10.0), 15.0))
  }

  /** The factor applied to the UEDGE table: 6.242e11 for the two radiation rates. */
  function UeMultiplier(name: string): (c: real)
    ensures c == 6.242e11 <==> name == "RECRAD" || name == "IONIZRAD"
    ensures c != 6.242e11 ==> c == 1.0
  {
    if name in ["RECRAD", "IONIZRAD"] then 6.242e11 else 1.0
  }

  /** [0, 1, ..., n - 1] as reals: the integer grid points of the UEDGE table. */
  function Indices(n: nat): (xs: seq<real>)
    ensures |xs| == n
    ensures forall i :: 0 <= i < n ==> xs[i] == i as real
  {
    seq(n, i => i as real)
  }

  /** The UEDGE rate: the interpolant over the grid (xs, ys) with table z evaluated at
      (jn, jt) — density first, temperature second — times the multiplier.
      `log10(None)` raises TypeError. */
  function UeRate(lib: Lib, name: string, xs: seq<real>, ys: seq<real>, z: seq<seq<real>>,
                  Te: real, ne: Option<real>): (r: Result<real>)
    ensures r.Raised? <==> ne.None?
    ensures r.Raised? ==> r.error == TypeError
    ensures r.Ok? ==> r.value == lib.interp2d(xs, ys, z, DensityIndex(lib, ne.value),
                                              TemperatureIndex(lib, Te)) * UeMultiplier(name)
  {
    if ne.None? then Raised(TypeError)
    else
      var jt := TemperatureIndex(lib, Te);
      var jn := DensityIndex(lib, ne.value);
      Ok(lib.interp2d(xs, ys, z, jn, jt) * UeMultiplier(name))
  }

  /** The UEDGE rate is the plain table value except for RECRAD and IONIZRAD, where it
      is scaled by exactly 6.242e11. */
  lemma UeMultiplierApplied(lib: Lib, name: string, xs: seq<real>, ys: seq<real>, z: seq<seq<real>>,
                            Te: real, ne: real)
    ensures var base := lib.interp2d(xs, ys, z, DensityIndex(lib, ne), TemperatureIndex(lib, Te));
            UeRate(lib, name, xs, ys, z, Te, Some(ne))
              == Ok(if name == "RECRAD" || name == "IONIZRAD" then base * 6.242e11 else base)
  {
  }

  /** Temperatures beyond the table's ends give the end rows' value: every Te whose
      scaled log lies at or above 60 gives the same rate. */
  lemma UeTemperatureSaturates(lib: Lib, name: string, xs: seq<real>, ys: seq<real>, z: seq<seq<real>>,
                               Te1: real, Te2: real, ne: Option<real>)
    requires 10.0 * (lib.log10(Te1 + 1e-99) + 1.2) >= 60.0
    requires 10.0 * (lib.log10(Te2 + 1e-99) + 1.2) >= 60.0
    ensures UeRate(lib, name, xs, ys, z, Te1, ne) == UeRate(lib, name, xs, ys, z, Te2, ne)
  {
    assert TemperatureIndex(lib, Te1) == 60.0 == TemperatureIndex(lib, Te2);
  }
}
