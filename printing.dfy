/** The text form of a reaction that `print_reaction` returns: the database and name,
    then each side of the reaction as species with their multipliers. */
module Printing {
  import opened Floats
  import opened PyData

  /** `'{}'.format(v)`: a string as it is, a number in Python's float formatting. */
  function Show(lib: Lib, v: Value): string
  {
    match v
    case Str(s) => s
    case Num(x) => lib.fmt(x)
  }

  /** `(m != 1) * '{}*'.format(m)`: a multiplier is written only when it is not 1. */
  function Prefix(lib: Lib, m: Value): (p: string)
    ensures m == Num(1.0) ==> p == ""
    ensures m != Num(1.0) ==> p == Show(lib, m) + "*"
  {
    if m != Num(1.0) then Show(lib, m) + "*" else ""
  }

  /** The i-th piece the loop appends: the species with its multiplier, a space, and
      `'+ '` unless it is the last species of the side. */
  function Term(lib: Lib, items: Field, mult: Field, i: nat): string
    requires i < Length(items) && i < Length(mult)
  {
    Prefix(lib, At(mult, i)) + Show(lib, At(items, i)) + " "
      + (if i + 1 != Length(items) then "+ " else "")
  }

  /** The first k pieces of one side, in the order the loop appends them. */
  function Side(lib: Lib, items: Field, mult: Field, k: nat): string
    requires k <= Length(items) && k <= Length(mult)
  {
    if k == 0 then "" else Side(lib, items, mult, k - 1) + Term(lib, items, mult, k - 1)
  }

  /** The header `'{}_{}: '.format(database, name)`. */
  function Header(database: string, name: string): string
  {
    database + "_" + name + ": "
  }

  /** What `print_reaction` returns, or IndexError when a multiplier list is shorter
      than its species list. */
  function Rendered(lib: Lib, database: string, name: string,
                    reactants: Field, rMult: Field, fragments: Field, fMult: Field): Result<string>
  {
    if Length(rMult) < Length(reactants) || Length(fMult) < Length(fragments) then
      Raised(IndexError)
    else
      Ok(Header(database, name)
         + Side(lib, reactants, rMult, Length(reactants)) + "=> "
         + Side(lib, fragments, fMult, Length(fragments)))
  }

  /** Appending the next piece to text ending in a side's first i pieces. */
  lemma AppendTerm(lib: Lib, prefix: string, items: Field, mult: Field, i: nat)
    requires i < Length(items) && i < Length(mult)
    ensures (prefix + Side(lib, items, mult, i)) + Term(lib, items, mult, i)
         == prefix + Side(lib, items, mult, i + 1)
  {
  }

  /** The rendered text, grouped as the method appends it. */
  lemma RenderedParts(lib: Lib, database: string, name: string,
                      reactants: Field, rMult: Field, fragments: Field, fMult: Field)
    requires Length(reactants) <= Length(rMult) && Length(fragments) <= Length(fMult)
    ensures Rendered(lib, database, name, reactants, rMult, fragments, fMult)
         == Ok(((Header(database, name) + Side(lib, reactants, rMult, Length(reactants))) + "=> ")
               + Side(lib, fragments, fMult, Length(fragments)))
  {
  }

  // ------------------------------------------------ an independent description

  /** A species as written: the multiplier prefix and the species. */
  function Factor(lib: Lib, items: Field, mult: Field, i: nat): string
    requires i < Length(items) && i < Length(mult)
  {
    Prefix(lib, At(mult, i)) + Show(lib, At(items, i))
  }

  /** The first k factors of a side. */
  function Factors(lib: Lib, items: Field, mult: Field, k: nat): (fs: seq<string>)
    requires k <= Length(items) && k <= Length(mult)
    ensures |fs| == k
    ensures forall i :: 0 <= i < k ==> fs[i] == Factor(lib, items, mult, i)
  {
    if k == 0 then [] else Factors(lib, items, mult, k - 1) + [Factor(lib, items, mult, k - 1)]
  }

  /** The strings joined by `" + "`. */
  function Join(fs: seq<string>): string
  {
    if |fs| == 0 then ""
    else if |fs| == 1 then fs[0]
    else fs[0] + " + " + Join(fs[1..])
  }

  /** A side as a reader writes it: the factors joined by `" + "`, followed by one space
      when the side is not empty. */
  function SideText(fs: seq<string>): string
  {
    if |fs| == 0 then "" else Join(fs) + " "
  }

  /** Joining one more string appends the separator and the string. */
  lemma {:induction false} JoinSnoc(fs: seq<string>, x: string)
    requires |fs| >= 1
    ensures Join(fs + [x]) == Join(fs) + " + " + x
  {
    if |fs| == 1 {
      assert fs + [x] == [fs[0], x];
      assert (fs + [x])[1..] == [x];
    } else {
      assert (fs + [x])[1..] == fs[1..] + [x];
      JoinSnoc(fs[1..], x);
    }
  }

  /** A piece is its factor followed by `" + "`, or by a single space at the end of the side. */
  lemma TermIsFactor(lib: Lib, items: Field, mult: Field, i: nat)
    requires i < Length(items) && i < Length(mult)
    ensures Term(lib, items, mult, i)
         == Factor(lib, items, mult, i) + (if i + 1 != Length(items) then " + " else " ")
  {
    var f := Factor(lib, items, mult, i);
    if i + 1 != Length(items) {
      calc {
        Term(lib, items, mult, i);
        (f + " ") + "+ ";
        f + (" " + "+ ");
        { assert " " + "+ " == " + "; }
        f + " + ";
      }
    }
  }

  /** Moving the separator after a factor out of the second operand. */
  lemma Regroup(j: string, f: string, tail: string)
    ensures (j + " + ") + (f + tail) == ((j + " + ") + f) + tail
  {
  }

  /** The first k factors are the first k - 1 and the (k - 1)-th. */
  lemma FactorsSnoc(lib: Lib, items: Field, mult: Field, k: nat)
    requires 1 <= k <= Length(items) && k <= Length(mult)
    ensures Factors(lib, items, mult, k)
         == Factors(lib, items, mult, k - 1) + [Factor(lib, items, mult, k - 1)]
  {
  }

  /** A side's first piece, on its own, is the first factor and its separator. */
  lemma SideFirst(lib: Lib, items: Field, mult: Field)
    requires 1 < Length(items) && Length(items) <= Length(mult)
    ensures Side(lib, items, mult, 1) == Join(Factors(lib, items, mult, 1)) + " + "
  {
    TermIsFactor(lib, items, mult, 0);
    FactorsSnoc(lib, items, mult, 1);
    assert Side(lib, items, mult, 1) == "" + Term(lib, items, mult, 0);
  }

  /** Every proper prefix of a side is the joined factors followed by `" + "`. */
  lemma {:induction false} SideOpen(lib: Lib, items: Field, mult: Field, k: nat)
    requires 1 <= k < Length(items) && Length(items) <= Length(mult)
    ensures Side(lib, items, mult, k) == Join(Factors(lib, items, mult, k)) + " + "
  {
    if k == 1 {
      SideFirst(lib, items, mult);
    } else {
      var f := Factor(lib, items, mult, k - 1);
      var prev := Factors(lib, items, mult, k - 1);
      SideOpen(lib, items, mult, k - 1);
      TermIsFactor(lib, items, mult, k - 1);
      assert Side(lib, items, mult, k) == (Join(prev) + " + ") + (f + " + ");
      Regroup(Join(prev), f, " + ");
      JoinSnoc(prev, f);
      FactorsSnoc(lib, items, mult, k);
    }
  }

  /** A whole side of two or more species closes with the last factor and a space. */
  lemma SideClosed(lib: Lib, items: Field, mult: Field)
    requires 2 <= Length(items) <= Length(mult)
    ensures Side(lib, items, mult, Length(items)) == Join(Factors(lib, items, mult, Length(items))) + " "
  {
    var n := Length(items);
    var f := Factor(lib, items, mult, n - 1);
    var prev := Factors(lib, items, mult, n - 1);
    FactorsSnoc(lib, items, mult, n);
    TermIsFactor(lib, items, mult, n - 1);
    SideOpen(lib, items, mult, n - 1);
    JoinSnoc(prev, f);
    Regroup(Join(prev), f, " ");
  }

  /** A whole side is its factors joined by `" + "` with one trailing space. */
  lemma {:induction false} SideIsJoined(lib: Lib, items: Field, mult: Field)
    requires Length(items) <= Length(mult)
    ensures Side(lib, items, mult, Length(items)) == SideText(Factors(lib, items, mult, Length(items)))
  {
    var n := Length(items);
    if n == 1 {
      TermIsFactor(lib, items, mult, 0);
      assert Factors(lib, items, mult, 1) == [Factor(lib, items, mult, 0)];
    } else if n >= 2 {
      SideClosed(lib, items, mult);
    }
  }

  /** The printed reaction is the header, the reactants joined by `" + "`, `"=> "`, and the
      fragments joined by `" + "`, each non-empty side followed by a space. */
  lemma RenderedLayout(lib: Lib, database: string, name: string,
                       reactants: Field, rMult: Field, fragments: Field, fMult: Field)
    requires Length(reactants) <= Length(rMult) && Length(fragments) <= Length(fMult)
    ensures Rendered(lib, database, name, reactants, rMult, fragments, fMult)
         == Ok(database + "_" + name + ": "
               + SideText(Factors(lib, reactants, rMult, Length(reactants))) + "=> "
               + SideText(Factors(lib, fragments, fMult, Length(fragments))))
  {
    SideIsJoined(lib, reactants, rMult);
    SideIsJoined(lib, fragments, fMult);
  }

  /** Electron-impact dissociation of H2 into two atoms, multipliers of one left out. */
  lemma RenderedDissociation(lib: Lib)
    ensures Rendered(lib, "H2VIBR", "2.2.5", List([Str("e"), Str("H2")]), List([Num(1.0), Num(1.0)]),
                     List([Str("e"), Str("H"), Str("H")]), List([Num(1.0), Num(1.0), Num(1.0)]))
         == Ok("H2VIBR_2.2.5: e + H2 => e + H + H ")
  {
    var r, rm := List([Str("e"), Str("H2")]), List([Num(1.0), Num(1.0)]);
    var f, fm := List([Str("e"), Str("H"), Str("H")]), List([Num(1.0), Num(1.0), Num(1.0)]);
    assert Length(r) == 2 == Length(rm) && Length(f) == 3 == Length(fm);
    DissociationReactants(lib);
    DissociationFragments(lib);
    DissociationText();
  }

  /** The dissociation's header and sides put together. */
  lemma DissociationText()
    ensures Header("H2VIBR", "2.2.5") + "e + H2 " + "=> " + "e + H + H "
         == "H2VIBR_2.2.5: e + H2 => e + H + H "
  {
  }

  /** The reactant side of the dissociation: `e + H2 `. */
  lemma DissociationReactants(lib: Lib)
    ensures Side(lib, List([Str("e"), Str("H2")]), List([Num(1.0), Num(1.0)]), 2) == "e + H2 "
  {
    var r, rm := List([Str("e"), Str("H2")]), List([Num(1.0), Num(1.0)]);
    assert Length(r) == 2 && Length(rm) == 2;
    assert Side(lib, r, rm, 1) == "e + " by {
      assert Side(lib, r, rm, 1) == "" + ("" + "e" + " " + "+ ");
    }
    assert Term(lib, r, rm, 1) == "" + "H2" + " " + "";
    assert "e + " + "H2 " == "e + H2 ";
  }

  /** The fragment side of the dissociation: `e + H + H `. */
  lemma DissociationFragments(lib: Lib)
    ensures Side(lib, List([Str("e"), Str("H"), Str("H")]), List([Num(1.0), Num(1.0), Num(1.0)]), 3)
         == "e + H + H "
  {
    var f, fm := List([Str("e"), Str("H"), Str("H")]), List([Num(1.0), Num(1.0), Num(1.0)]);
    assert Length(f) == 3 && Length(fm) == 3;
    assert Side(lib, f, fm, 2) == "e + H + " by {
      assert Side(lib, f, fm, 1) == "e + " by {
        assert Side(lib, f, fm, 1) == "" + ("" + "e" + " " + "+ ");
      }
      assert Term(lib, f, fm, 1) == "" + "H" + " " + "+ ";
      assert "e + " + "H + " == "e + H + ";
    }
    assert Term(lib, f, fm, 2) == "" + "H" + " " + "";
    assert "e + H + " + "H " == "e + H + H ";
  }

  /** A multiplier other than one is written before its species with a `*`: a numeric
      multiplier 2 that formats as "2" prints as `2*H`. */
  lemma RenderedMultiplier(lib: Lib)
    requires lib.fmt(2.0) == "2"
    ensures Rendered(lib, "X", "r", List([Str("p")]), List([Num(1.0)]),
                     List([Str("H")]), List([Num(2.0)]))
         == Ok("X_r: p => 2*H ")
  {
    var r, rm, f, fm := List([Str("p")]), List([Num(1.0)]), List([Str("H")]), List([Num(2.0)]);
    assert Length(r) == 1 && Length(f) == 1;
    assert Side(lib, r, rm, 1) == "p " by {
      assert Side(lib, r, rm, 1) == "" + "p ";
    }
    assert Side(lib, f, fm, 1) == "2*H " by {
      assert Side(lib, f, fm, 1) == "" + ("2" + "*" + "H" + " " + "");
    }
    assert Header("X", "r") + "p " + "=> " + "2*H " == "X_r: p => 2*H ";
  }
}
