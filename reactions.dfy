/** The reaction object of the collisional-radiative model: it stores a reaction's
    stoichiometry and fit coefficients, renders the reaction as text, and evaluates its
    rate by the fit family its type tag names. */
module Reactions {
  import opened Wrappers
  import opened Floats
  import opened PyData
  import opened Printing
  import opened Fits
  import opened Sawada
  import opened Apid

  /** The interpolator built at construction: a bilinear one over the UEDGE table, a
      piecewise-linear one over the ADAS table, or none for the other types. */
  datatype Interpolant =
    | NoInterpolant
    | Linear2D(xs: seq<real>, ys: seq<real>, z: seq<seq<real>>)
    | Slinear1D(xs: seq<real>, ys: seq<real>)

  /** The interpolator for a type: `interp2d(n, t, coeffs)` with n the column indices
      and t the row indices for UE, `interp1d(Tarr, coeffs)` for ADAS. */
  function InterpolantFor(kind: string, coeffs: NdArray, tarr: NdArray): Interpolant
  {
    if kind == "UE" && coeffs.Matrix? then
      Linear2D(Indices(coeffs.cols), Indices(|coeffs.rows|), coeffs.rows)
    else if kind == "ADAS" && tarr.Vector? && coeffs.Vector? then
      Slinear1D(tarr.v, coeffs.v)
    else NoInterpolant
  }

  /** The arrays a type can be built from: a 2-d table of at least 2×2 for UE, a
      temperature grid and values of one common length of at least two for ADAS, and a
      0-d or 1-d array for SIGMA and APID. */
  predicate Supported(kind: string, coeffs: NdArray, tarr: NdArray)
  {
    && WellShaped(coeffs)
    && (kind == "UE" ==> coeffs.Matrix? && |coeffs.rows| >= 2 && coeffs.cols >= 2)
    && (kind == "ADAS" ==> tarr.Vector? && coeffs.Vector? && |tarr.v| == |coeffs.v| >= 2)
    && (kind == "SIGMA" || kind == "APID" ==> coeffs.Scalar? || coeffs.Vector?)
  }

  /** The temperature a reaction is evaluated at: Te when an electron is among the
      reactants, otherwise Ti when a proton is, otherwise 0 (photoemission). */
  function SpeciesTemperature(reactants: Field, Te: real, Ti: real): (T: real)
    ensures HasSpecies(reactants, 'e') ==> T == Te
    ensures !HasSpecies(reactants, 'e') && HasSpecies(reactants, 'p') ==> T == Ti
    ensures !HasSpecies(reactants, 'e') && !HasSpecies(reactants, 'p') ==> T == 0.0
  {
    if HasSpecies(reactants, 'e') then Te
    else if HasSpecies(reactants, 'p') then Ti
    else 0.0
  }

  /** `name.split('_')[0].upper() == 'IONIZ'`: the APID branch only evaluates ionization. */
  predicate IonizGate(name: string)
  {
    Upper(HeadBeforeUnderscore(name)) == "IONIZ"
  }

  /** The text before the first underscore is any underscore-free prefix that ends the
      string or is followed by an underscore. */
  lemma {:induction false} HeadIsPrefix(s: string, p: string)
    requires p <= s && '_' !in p
    requires |p| == |s| || s[|p|] == '_'
    ensures HeadBeforeUnderscore(s) == p
  {
    if |p| > 0 {
      assert s[0] == p[0];
      HeadIsPrefix(s[1..], p[1..]);
    }
  }

  /** The gate holds exactly for names whose first five characters upper-case to
      IONIZ and which end there or continue with an underscore. */
  lemma IonizGateIff(name: string)
    ensures IonizGate(name)
        <==> |name| >= 5 && Upper(name[..5]) == "IONIZ" && (|name| == 5 || name[5] == '_')
  {
    var h := HeadBeforeUnderscore(name);
    if IonizGate(name) {
      assert |h| == 5 && h == name[..5];
    }
    if |name| >= 5 && Upper(name[..5]) == "IONIZ" && (|name| == 5 || name[5] == '_') {
      var p := name[..5];
      forall i | 0 <= i < 5
        ensures p[i] != '_'
      {
        assert UpperChar(p[i]) == "IONIZ"[i];
      }
      HeadIsPrefix(name, p);
    }
  }

  /** `'ioniz_x'` passes the gate: case is ignored, and the underscore ends the head. */
  lemma IonizGateAcceptsSuffix()
    ensures IonizGate("ioniz_x")
  {
    assert "ioniz_x"[..5] == "ioniz";
    IonizGateIff("ioniz_x");
  }

  /** `'IONIZATION'` does not pass the gate: its head is the whole word. */
  lemma IonizGateRejectsLongerWord()
    ensures !IonizGate("IONIZATION")
  {
    IonizGateIff("IONIZATION");
  }

  /** A branch value as `rate` returns it: a 0-d array, or the exception. */
  function Lift(r: Result<real>): (o: Result<Option<NdArray>>)
    ensures r.Ok? <==> o.Ok?
    ensures r.Ok? ==> o.value == Some(Scalar(r.value))
    ensures r.Raised? ==> o.error == r.error
  {
    if r.Raised? then Raised(r.error) else Ok(Some(Scalar(r.value)))
  }

  class Reaction {
    const name: string
    const database: string
    const reactants: Field
    const fragments: Field
    const rMult: Field
    const fMult: Field
    const coeffs: NdArray
    const kind: string
    const tarr: NdArray
    /** The energy bookkeeping entries S_r, S_V, S_g and S_e. */
    const sR: Value
    const sV: Value
    const sG: Value
    const sE: Value
    const interpolation: Interpolant

    /** The coefficients suit the type, and the interpolator is the one the type needs. */
    ghost predicate Valid()
    {
      Supported(kind, coeffs, tarr) && interpolation == InterpolantFor(kind, coeffs, tarr)
    }

    /** Stores the reaction. The stoichiometry fields are taken from S before the
        caller's S has the four-character prefix removed from each string entry among
        its first four; S[4] is left as it is and supplies the energy entries. */
    constructor (name: string, database: string, coeffs: NdArray, typ: string,
                 S: array<Field>, tarr: NdArray)
      requires S.Length >= 5 && Length(S[4]) >= 2
      requires Supported(typ, coeffs, tarr)
      modifies S
      ensures this.name == name && this.database == database
      ensures this.coeffs == coeffs && kind == typ && this.tarr == tarr
      ensures reactants == old(S[0]) && fragments == old(S[1])
      ensures rMult == old(S[2]) && fMult == old(S[3])
      ensures forall i :: 0 <= i < 4 ==> S[i] == StripPrefix(old(S[i]))
      ensures forall i :: 4 <= i < S.Length ==> S[i] == old(S[i])
      ensures sR == At(S[4], 0) && sV == At(S[4], 1)
      ensures sG == At(S[4], -2) && sE == At(S[4], -1)
      ensures Valid()
    {
      this.name := name;
      this.coeffs := coeffs;
      this.database := database;
      reactants := S[0];
      rMult := S[2];
      fragments := S[1];
      fMult := S[3];
      kind := typ;
      this.tarr := tarr;
      for i := 0 to 4
        invariant forall k :: 0 <= k < i ==> S[k] == StripPrefix(old(S[k]))
        invariant forall k :: i <= k < S.Length ==> S[k] == old(S[k])
      {
        if S[i].Text? {
          var s := S[i].s;
          S[i] := Text(if |s| >= 4 then s[4..] else "");
        }
      }
      sR := At(S[4], 0);
      sG := At(S[4], -2);
      sV := At(S[4], 1);
      sE := At(S[4], -1);
      interpolation := InterpolantFor(typ, coeffs, tarr);
    }

    /** `print_reaction`: the header, then each reactant's piece, `'=> '`, then each
        fragment's piece, appended one at a time. */
    method PrintReaction(lib: Lib) returns (r: Result<string>)
      ensures r == Rendered(lib, database, name, reactants, rMult, fragments, fMult)
    {
      var ret := "";
      ret := ret + Header(database, name);
      assert ret == Header(database, name);
      var left := AppendSide(lib, ret, reactants, rMult);
      if left.Raised? {
        return Raised(left.error);
      }
      ret := left.value + "=> ";
      r := AppendSide(lib, ret, fragments, fMult);
      if r.Ok? {
        RenderedParts(lib, database, name, reactants, rMult, fragments, fMult);
      }
    }

    /** One loop of `print_reaction`: appends the pieces of a side to `ret`, raising
        IndexError at the first species without a multiplier. */
    static method AppendSide(lib: Lib, ret0: string, items: Field, mult: Field) returns (r: Result<string>)
      ensures r == if Length(mult) < Length(items) then Raised(IndexError)
                   else Ok(ret0 + Side(lib, items, mult, Length(items)))
    {
      var ret := ret0;
      for i := 0 to Length(items)
        invariant i <= Length(mult)
        invariant ret == ret0 + Side(lib, items, mult, i)
      {
        if i >= Length(mult) {
          return Raised(IndexError);
        }
        AppendTerm(lib, ret0, items, mult, i);
        ret := ret + Term(lib, items, mult, i);
      }
      return Ok(ret);
    }

    /** What `rate(Te, Ti, E, ne, omegaj)` returns: None for an APID reaction that is
        not an ionization and for an unknown type tag. */
    function RateOf(lib: Lib, Te: real, Ti: real, E: Option<real>, ne: Option<real>, omegaj: real)
      : Result<Option<NdArray>>
      requires Valid()
    {
      var T := SpeciesTemperature(reactants, Te, Ti);
      if kind == "RATE" then Lift(RateFit(lib, coeffs, T, E))
      else if kind == "COEFFICIENT" then Ok(Some(coeffs))
      else if kind == "SIGMA" then Lift(SigmaRate(lib, coeffs, T, E))
      else if kind == "ADAS" then Lift(AdasRate(lib, interpolation.xs, interpolation.ys, T, omegaj))
      else if kind == "UE" then
        Lift(UeRate(lib, name, interpolation.xs, interpolation.ys, interpolation.z, Te, ne))
      else if kind == "APID" then
        (if IonizGate(name) then Lift(ApidValue(lib, Entries(coeffs), T)) else Ok(None))
      else Ok(None)
    }

    /** `rate`: the species rule picks T, then the type tag picks the branch. */
    method Rate(lib: Lib, Te: real, Ti: real, E: Option<real>, ne: Option<real>, omegaj: real)
      returns (r: Result<Option<NdArray>>)
      requires Valid()
      ensures r == RateOf(lib, Te, Ti, E, ne, omegaj)
    {
      var T;
      if HasSpecies(reactants, 'e') {
        T := Te;
      } else if HasSpecies(reactants, 'p') {
        T := Ti;
      } else {
        T := 0.0;
      }
      if kind == "RATE" {
        var v := EireneFit(lib, coeffs, T, E);
        return Lift(v);
      } else if kind == "COEFFICIENT" {
        return Ok(Some(coeffs));
      } else if kind == "SIGMA" {
        return Lift(SigmaRate(lib, coeffs, T, E));
      } else if kind == "ADAS" {
        r := AdasBranch(lib, T, omegaj);
        return;
      } else if kind == "UE" {
        return Lift(UeRate(lib, name, interpolation.xs, interpolation.ys, interpolation.z, Te, ne));
      } else if kind == "APID" {
        if IonizGate(name) {
          var v := ApidSigma(lib, Entries(coeffs), T);
          return Lift(v);
        }
        return Ok(None);
      }
      return Ok(None);
    }

    /** The ADAS branch: T is raised to Tarr[0] and capped at Tarr[-1] before the
        interpolator is evaluated. */
    method AdasBranch(lib: Lib, T: real, omegaj: real) returns (r: Result<Option<NdArray>>)
      requires Valid() && kind == "ADAS"
      ensures r == Lift(AdasRate(lib, interpolation.xs, interpolation.ys, T, omegaj))
    {
      var grid := interpolation.xs;
      var Tuse;
      // The source also sets a ramp factor T/Tarr[0] here, which the return ignores.
      if T < grid[0] {
        Tuse := grid[0];
      } else {
        Tuse := T;
      }
      Tuse := Min(Tuse, grid[|grid| - 1]);
      if omegaj == 0.0 {
        return Raised(ZeroDivisionError);
      }
      if Tuse < Lowest(grid) || Tuse > Highest(grid) {
        return Raised(ValueError);
      }
      return Ok(Some(Scalar(AdasFormula(lib, grid, interpolation.ys, Tuse, 1.0 / omegaj))));
    }

    /** With an electron among the reactants the ion temperature is never used. */
    lemma ElectronsSelectTe(lib: Lib, Te: real, Ti1: real, Ti2: real, E: Option<real>,
                            ne: Option<real>, omegaj: real)
      requires Valid() && HasSpecies(reactants, 'e')
      ensures RateOf(lib, Te, Ti1, E, ne, omegaj) == RateOf(lib, Te, Ti2, E, ne, omegaj)
    {
    }

    /** A COEFFICIENT reaction returns its coefficient array unchanged. */
    lemma CoefficientReturnsTable(lib: Lib, Te: real, Ti: real, E: Option<real>,
                                  ne: Option<real>, omegaj: real)
      requires Valid() && kind == "COEFFICIENT"
      ensures RateOf(lib, Te, Ti, E, ne, omegaj) == Ok(Some(coeffs))
    {
    }

    /** An APID reaction that is not an ionization, and a reaction of an unknown type,
        return None. */
    lemma RateNone(lib: Lib, Te: real, Ti: real, E: Option<real>, ne: Option<real>, omegaj: real)
      requires Valid()
      requires (kind == "APID" && !IonizGate(name))
            || kind !in {"RATE", "COEFFICIENT", "SIGMA", "ADAS", "UE", "APID"}
      ensures RateOf(lib, Te, Ti, E, ne, omegaj) == Ok(None)
    {
    }

    /** Only RATE, COEFFICIENT, SIGMA, ADAS, UE and APID ionization reactions return a
        value: every other reaction returns None and never raises. */
    lemma RateSomeOnlyForKnownTypes(lib: Lib, Te: real, Ti: real, E: Option<real>,
                                    ne: Option<real>, omegaj: real)
      requires Valid()
      ensures RateOf(lib, Te, Ti, E, ne, omegaj).Ok? && RateOf(lib, Te, Ti, E, ne, omegaj).value.Some?
          ==> kind in {"RATE", "COEFFICIENT", "SIGMA", "ADAS", "UE"} || (kind == "APID" && IonizGate(name))
    {
    }

    /** The UEDGE table is read with the density index along its columns and the
        temperature index along its rows; the temperature index comes from Te whatever
        the species rule selects. */
    lemma UeOrientation(lib: Lib, Te: real, Ti: real, E: Option<real>, ne: real, omegaj: real)
      requires Valid() && kind == "UE"
      ensures interpolation.Linear2D?
      ensures interpolation.xs == Indices(coeffs.cols) && interpolation.ys == Indices(|coeffs.rows|)
      ensures interpolation.z == coeffs.rows
      ensures RateOf(lib, Te, Ti, E, Some(ne), omegaj)
           == Ok(Some(Scalar(lib.interp2d(Indices(coeffs.cols), Indices(|coeffs.rows|), coeffs.rows,
                                          DensityIndex(lib, ne), TemperatureIndex(lib, Te))
                             * UeMultiplier(name))))
    {
    }

    /** An ADAS reaction fails only for a zero weight, and below the grid its rate is
        the rate at Tarr[0]. */
    lemma AdasClamped(lib: Lib, Te: real, Ti: real, E: Option<real>, ne: Option<real>, omegaj: real)
      requires Valid() && kind == "ADAS"
      ensures RateOf(lib, Te, Ti, E, ne, omegaj).Ok? <==> omegaj != 0.0
      ensures var T := SpeciesTemperature(reactants, Te, Ti);
              T < tarr.v[0] ==>
                RateOf(lib, Te, Ti, E, ne, omegaj)
                  == Lift(AdasRate(lib, tarr.v, coeffs.v, tarr.v[0], omegaj))
    {
      var T := SpeciesTemperature(reactants, Te, Ti);
      AdasDefinedIffWeightNonzero(lib, tarr.v, coeffs.v, T, omegaj);
      if T < tarr.v[0] {
        AdasFlatBelow(lib, tarr.v, coeffs.v, T, omegaj);
      }
    }
  }
}
