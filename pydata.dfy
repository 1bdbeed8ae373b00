/** The Python values a reaction object stores, and the exceptions its evaluation raises. */
module PyData {

  /** Exceptions raised on the evaluation path: an arithmetic operation on `None`
      (TypeError), an index past the end of an array (IndexError), an interpolation
      argument outside the table (ValueError), or a Python division by zero
      (ZeroDivisionError). */
  datatype PyError = TypeError | IndexError | ValueError | ZeroDivisionError

  /** The outcome of a Python call: a returned value, or a raised exception. */
  datatype Result<+T> = Ok(value: T) | Raised(error: PyError)

  /** A scalar entry of a stoichiometry list: a species handle or a number. */
  datatype Value = Str(s: string) | Num(x: real)

  /** A stoichiometry field of the descriptor `S`: a plain string or a list of values. */
  datatype Field = Text(s: string) | List(items: seq<Value>)

  /** A numpy array, by rank: 0-d, 1-d, a rectangular 2-d array, or anything of higher rank. */
  datatype NdArray =
    | Scalar(x: real)
    | Vector(v: seq<real>)
    | Matrix(cols: nat, rows: seq<seq<real>>)
    | Tensor(shape: seq<nat>, flat: seq<real>)

  /** `len(a.shape)`. */
  function Rank(a: NdArray): nat
  {
    match a
    case Scalar(_) => 0
    case Vector(_) => 1
    case Matrix(_, _) => 2
    case Tensor(shape, _) => |shape|
  }

  /** Every row of a matrix has `cols` entries; a tensor has rank three or more. */
  predicate WellShaped(a: NdArray)
  {
    match a
    case Matrix(cols, rows) => forall i :: 0 <= i < |rows| ==> |rows[i]| == cols
    case Tensor(shape, _) => |shape| >= 3
    case _ => true
  }

  /** `len(f)`. */
  function Length(f: Field): nat
  {
    match f
    case Text(s) => |s|
    case List(items) => |items|
  }

  /** `f[i]`, a negative index counting from the end; indexing a string yields a
      one-character string. */
  function At(f: Field, i: int): Value
    requires -(Length(f) as int) <= i < Length(f)
  {
    var j := if i < 0 then Length(f) + i else i;
    match f
    case Text(s) => Str([s[j]])
    case List(items) => items[j]
  }

  /** `c in f` for a one-character handle: a character test on a string, an element
      test on a list. */
  predicate HasSpecies(f: Field, c: char)
  {
    match f
    case Text(s) => c in s
    case List(items) => Str([c]) in items
  }

  /** `s[4:]` on a string field (removing the source-table prefix); lists are kept. */
  function StripPrefix(f: Field): (g: Field)
    ensures f.List? ==> g == f
    ensures f.Text? ==> g.Text? && |g.s| == (if |f.s| >= 4 then |f.s| - 4 else 0)
  {
    match f
    case Text(s) => Text(if |s| >= 4 then s[4..] else "")
    case List(_) => f
  }

  /** Stripping undoes the four-character table prefix. */
  lemma StripPrefixRemovesTag(tag: string, s: string)
    requires |tag| == 4
    ensures StripPrefix(Text(tag + s)) == Text(s)
  {
    assert (tag + s)[4..] == s;
  }

  /** `s.split('_')[0]`: the text before the first underscore. */
  function HeadBeforeUnderscore(s: string): (h: string)
    ensures h <= s && '_' !in h
    ensures |h| < |s| ==> s[|h|] == '_'
  {
    if |s| == 0 || s[0] == '_' then "" else [s[0]] + HeadBeforeUnderscore(s[1..])
  }

  /** `c.upper()` on an ASCII character. */
  function UpperChar(c: char): char
  {
    if 'a' <= c <= 'z' then (c as int - 32) as char else c
  }

  /** `s.upper()`, character by character. */
  function Upper(s: string): (u: string)
    ensures |u| == |s|
    ensures forall i :: 0 <= i < |s| ==> u[i] == UpperChar(s[i])
  {
    if |s| == 0 then "" else [UpperChar(s[0])] + Upper(s[1..])
  }
}
