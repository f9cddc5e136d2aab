/**
 * Site bases over a site space: the indicator function, the index
 * arithmetic of the sinusoid factory, the domain-encoding decorator, the
 * function arrays of the standard and the indicator bases, the species
 * check of the basis constructor, `rotate` on the stored arrays, the
 * iterator name `basis_factory` builds and the class dispatch of
 * `from_dict`.
 *
 * Sines, cosines and polynomials are floating-point: a site function is
 * kept as a description (`SiteFunction`), and the value of its elementary
 * part at an encoded point comes from the parameter `elementary`.
 */
module Basis {
  import opened Errors

  /** A species of the site space, by its name. */
  type Species = string

  /** `indicator(s, sp)`: 1.0 on the species `sp` and 0.0 everywhere else. */
  function Indicator(s: Species, sp: Species): (r: real)
    ensures r == 1.0 <==> s == sp
    ensures r == 0.0 <==> s != sp
  {
    if s == sp then 1.0 else 0.0
  }

  datatype Wave = Sine | Cosine

  /** `partial(sin_f, a=a, m=m)` or `partial(cos_f, a=a, m=m)`. */
  datatype Sinusoid = Sinusoid(wave: Wave, a: int, m: int)

  /** The numpy polynomial evaluators: `polyval`, `chebval`, `legval`. */
  datatype Family = Power | Chebyshev | Legendre

  /** A univariate function of an encoded species. */
  datatype Elementary = Trig(s: Sinusoid) | Polynomial(family: Family, degree: nat)

  /** A site function a basis iterator yields. */
  datatype SiteFunction =
    | IndicatorOf(sp: Species)                                  // partial(indicator, sp=sp)
    | Encoded(encoding: map<Species, real>, g: Elementary)      // encode_domain(encoding)(g)

  /**
   * `sinusoid_factory(n, m)`: `a` is `-(-n // 2)`, the ceiling of `n / 2`
   * (Dafny's `/` by a positive divisor is the floor, like Python's `//`);
   * an even `n` gives the sine and an odd one the cosine.
   */
  function SinusoidFactory(n: int, m: int): (r: Sinusoid)
    ensures r.m == m
    ensures 2 * r.a - 1 <= n <= 2 * r.a
    ensures r.wave == Sine <==> n % 2 == 0
  {
    var a := -((-n) / 2);
    if n % 2 == 0 then Sinusoid(Sine, a, m) else Sinusoid(Cosine, a, m)
  }

  /**
   * `encode_domain(encoding)(g)(s)`: `g` applied to the encoding of `s`; a
   * species without an encoding raises KeyError.
   */
  function EncodeDomain(encoding: map<Species, real>, g: Elementary, s: Species,
                        elementary: (Elementary, real) -> real): (r: Result<real>)
    ensures r.Ok? <==> s in encoding
    ensures r.Ok? ==> r.value == elementary(g, encoding[s])
    ensures r.Err? ==> r.error.KeyError?
  {
    if s in encoding then Ok(elementary(g, encoding[s])) else Err(KeyError(s))
  }

  /** Calling a site function on a species. */
  function Eval(f: SiteFunction, s: Species, elementary: (Elementary, real) -> real): Result<real> {
    match f
    case IndicatorOf(sp) => Ok(Indicator(s, sp))
    case Encoded(encoding, g) => EncodeDomain(encoding, g, s, elementary)
  }

  predicate Distinct(xs: seq<Species>) {
    forall i, j :: 0 <= i < j < |xs| ==> xs[i] != xs[j]
  }

  /** `{s: i for (i, s) in enumerate(species)}`, and `zip(species, grid)` for the polynomial iterators. */
  function Encoding(species: seq<Species>, grid: seq<real>): (r: map<Species, real>)
    requires Distinct(species) && |grid| == |species|
    ensures r.Keys == set s | s in species
    ensures forall i :: 0 <= i < |species| ==> r[species[i]] == grid[i]
  {
    map i | 0 <= i < |species| :: species[i] := grid[i]
  }

  /** The positions `0, 1, ..., n - 1` as reals. */
  function Positions(n: nat): (r: seq<real>)
    ensures |r| == n && forall i :: 0 <= i < n ==> r[i] == i as real
  {
    seq(n, i requires 0 <= i < n => i as real)
  }

  /** The iterator classes that build a basis; `Numpy` stands for a polynomial family on a grid. */
  datatype IteratorKind = IndicatorIterator | SinusoidIterator | NumpyPolyIterator(family: Family)

  /**
   * The functions an iterator yields, one per species in its order: the
   * indicator of the species; the sinusoid numbered by the species'
   * position plus one; the polynomial of degree position plus one on the
   * species' grid point (`np.linspace(low, high, n)`, given as `grid`).
   */
  function IteratorFunctions(kind: IteratorKind, species: seq<Species>, grid: seq<real>): (r: seq<SiteFunction>)
    requires Distinct(species) && |grid| == |species|
    ensures |r| == |species|
    ensures kind.IndicatorIterator? ==> forall k :: 0 <= k < |r| ==> r[k] == IndicatorOf(species[k])
    ensures kind.SinusoidIterator? ==> forall k :: 0 <= k < |r| ==>
      r[k] == Encoded(Encoding(species, Positions(|species|)), Trig(SinusoidFactory(k + 1, |species|)))
  {
    match kind
    case IndicatorIterator => seq(|species|, k requires 0 <= k < |species| => IndicatorOf(species[k]))
    case SinusoidIterator =>
      var enc := Encoding(species, Positions(|species|));
      seq(|species|, k requires 0 <= k < |species| => Encoded(enc, Trig(SinusoidFactory(k + 1, |species|))))
    case NumpyPolyIterator(family) =>
      var enc := Encoding(species, grid);
      seq(|species|, k requires 0 <= k < |species| => Encoded(enc, Polynomial(family, k + 1)))
  }

  /** `[function(sp) for sp in species]`: the first species that fails raises its KeyError. */
  function Row(f: SiteFunction, species: seq<Species>, elementary: (Elementary, real) -> real): (r: Result<seq<real>>)
    ensures r.Ok? <==> forall k :: 0 <= k < |species| ==> Eval(f, species[k], elementary).Ok?
    ensures r.Ok? ==> (|r.value| == |species|
      && forall k :: 0 <= k < |species| ==> r.value[k] == Eval(f, species[k], elementary).value)
    ensures r.Err? ==> r.error.KeyError?
    decreases |species|
  {
    if species == [] then Ok([])
    else
      match Eval(f, species[0], elementary)
      case Err(e) => Err(e)
      case Ok(v) =>
        match Row(f, species[1..], elementary)
        case Err(e) => Err(e)
        case Ok(rest) => Ok([v] + rest)
  }

  /** One row per function, in the functions' order. */
  function Rows(funcs: seq<SiteFunction>, species: seq<Species>, elementary: (Elementary, real) -> real): (r: Result<seq<seq<real>>>)
    ensures r.Ok? <==> forall i, k :: 0 <= i < |funcs| && 0 <= k < |species| ==> Eval(funcs[i], species[k], elementary).Ok?
    ensures r.Ok? ==> |r.value| == |funcs| && forall i :: 0 <= i < |funcs| ==> Row(funcs[i], species, elementary) == Ok(r.value[i])
    ensures r.Err? ==> r.error.KeyError?
    decreases |funcs|
  {
    if funcs == [] then Ok([])
    else
      match Row(funcs[0], species, elementary)
      case Err(e) => Err(e)
      case Ok(v) =>
        match Rows(funcs[1..], species, elementary)
        case Err(e) => Err(e)
        case Ok(rest) =>
          assert forall i :: 1 <= i < |funcs| ==> funcs[i] == funcs[1..][i - 1];
          Ok([v] + rest)
  }

  /** A row of ones, `np.ones_like(func_arr[0])`. */
  function Ones(n: nat): (r: seq<real>)
    ensures |r| == n && forall k :: 0 <= k < n ==> r[k] == 1.0
  {
    seq(n, k requires 0 <= k < n => 1.0)
  }

  /**
   * `StandardBasis._construct_function_array`: the rows of every function
   * but the last, under a row of ones. With fewer than two functions there
   * is no row to copy the shape of and `func_arr[0]` raises IndexError.
   */
  function StandardArray(funcs: seq<SiteFunction>, species: seq<Species>, elementary: (Elementary, real) -> real): Result<seq<seq<real>>> {
    if funcs == [] then Err(IndexError("index 0 is out of bounds"))
    else
      match Rows(funcs[..|funcs| - 1], species, elementary)
      case Err(e) => Err(e)
      case Ok(rows) =>
        if rows == [] then Err(IndexError("index 0 is out of bounds")) else Ok([Ones(|species|)] + rows)
  }

  /** `IndicatorBasis._construct_function_array`: one row per function, all of them. */
  function IndicatorArray(funcs: seq<SiteFunction>, species: seq<Species>, elementary: (Elementary, real) -> real): Result<seq<seq<real>>> {
    Rows(funcs, species, elementary)
  }

  /** Every species a function is called on has an encoding in it. */
  predicate Encodes(funcs: seq<SiteFunction>, species: seq<Species>) {
    forall i, k :: 0 <= i < |funcs| && 0 <= k < |species| && funcs[i].Encoded? ==> species[k] in funcs[i].encoding
  }

  lemma EncodedEvaluates(funcs: seq<SiteFunction>, species: seq<Species>, elementary: (Elementary, real) -> real)
    requires Encodes(funcs, species)
    ensures forall i, k :: 0 <= i < |funcs| && 0 <= k < |species| ==> Eval(funcs[i], species[k], elementary).Ok?
  {
  }

  /**
   * The standard function array of functions every species can be passed
   * to: it exists exactly when there are two functions or more; its first
   * row is all ones and row `i + 1` holds function `i` at every species;
   * the last function has no row.
   */
  lemma StandardArrayMeaning(funcs: seq<SiteFunction>, species: seq<Species>, elementary: (Elementary, real) -> real)
    requires Encodes(funcs, species)
    ensures var r := StandardArray(funcs, species, elementary);
      && (r.Ok? <==> |funcs| >= 2)
      && (r.Err? ==> r.error.IndexError?)
      && (r.Ok? ==> (|r.value| == |funcs| && r.value[0] == Ones(|species|)
            && forall i, k :: 0 <= i < |funcs| - 1 && 0 <= k < |species| ==>
                 |r.value[i + 1]| == |species| && r.value[i + 1][k] == Eval(funcs[i], species[k], elementary).value))
  {
    if funcs != [] {
      var init := funcs[..|funcs| - 1];
      EncodedEvaluates(funcs, species, elementary);
      assert forall i :: 0 <= i < |init| ==> init[i] == funcs[i];
      var rows := Rows(init, species, elementary);
      assert rows.Ok?;
      if |funcs| >= 2 {
        forall i, k | 0 <= i < |funcs| - 1 && 0 <= k < |species|
          ensures |rows.value[i]| == |species| && rows.value[i][k] == Eval(funcs[i], species[k], elementary).value
        {
          assert Row(init[i], species, elementary) == Ok(rows.value[i]);
        }
      }
    }
  }

  /** The n-by-n identity. */
  function Identity(n: nat): (r: seq<seq<real>>)
    ensures |r| == n && forall i :: 0 <= i < n ==> |r[i]| == n
    ensures forall i, j :: 0 <= i < n && 0 <= j < n ==> r[i][j] == (if i == j then 1.0 else 0.0)
  {
    seq(n, i requires 0 <= i < n => seq(n, j requires 0 <= j < n => if i == j then 1.0 else 0.0))
  }

  /**
   * With indicator functions on distinct species the standard function
   * array (without its row of ones) has ones on its diagonal and zeros
   * elsewhere: row `i` is the indicator of species `i`, for every species
   * but the last.
   */
  lemma IndicatorStandardDiagonal(species: seq<Species>, grid: seq<real>, elementary: (Elementary, real) -> real)
    requires Distinct(species) && |grid| == |species| && |species| >= 2
    ensures var r := StandardArray(IteratorFunctions(IndicatorIterator, species, grid), species, elementary);
      && r.Ok? && |r.value| == |species|
      && forall i, j :: 0 <= i < |species| - 1 && 0 <= j < |species| ==>
           r.value[1..][i][j] == (if i == j then 1.0 else 0.0)
  {
    var funcs := IteratorFunctions(IndicatorIterator, species, grid);
    StandardArrayMeaning(funcs, species, elementary);
  }

  /** The indicator basis keeps every function: its array is the identity on distinct species. */
  lemma IndicatorBasisIdentity(species: seq<Species>, grid: seq<real>, elementary: (Elementary, real) -> real)
    requires Distinct(species) && |grid| == |species|
    ensures IndicatorArray(IteratorFunctions(IndicatorIterator, species, grid), species, elementary) == Ok(Identity(|species|))
  {
    var funcs := IteratorFunctions(IndicatorIterator, species, grid);
    var n := |species|;
    var id := Identity(n);
    forall i | 0 <= i < n
      ensures Row(funcs[i], species, elementary) == Ok(id[i])
    {
      var row := Row(funcs[i], species, elementary);
      forall k | 0 <= k < n
        ensures Eval(funcs[i], species[k], elementary) == Ok(id[i][k])
      {
        assert funcs[i] == IndicatorOf(species[i]);
        assert species[k] == species[i] <==> k == i;
      }
      assert row.Ok?;
      assert row.value == id[i];
    }
    var r := Rows(funcs, species, elementary);
    assert r.Ok?;
    assert forall i :: 0 <= i < n ==> r.value[i] == id[i];
    assert r.value == id;
  }

  /**
   * The sinusoid basis: entry `(k, i)` of the function array is sinusoid
   * number `k + 1` (from `sinusoid_factory(k + 1, m)`) at the code `i`,
   * for `k` below `m - 1` and every code `i` below `m`.
   */
  lemma SinusoidStandardEntries(species: seq<Species>, grid: seq<real>, elementary: (Elementary, real) -> real)
    requires Distinct(species) && |grid| == |species| && |species| >= 2
    ensures var m := |species|;
      var r := StandardArray(IteratorFunctions(SinusoidIterator, species, grid), species, elementary);
      && r.Ok?
      && forall k, i :: 0 <= k < m - 1 && 0 <= i < m ==>
           r.value[1..][k][i] == elementary(Trig(SinusoidFactory(k + 1, m)), i as real)
  {
    var funcs := IteratorFunctions(SinusoidIterator, species, grid);
    var enc := Encoding(species, Positions(|species|));
    assert Encodes(funcs, species) by {
      forall i, k | 0 <= i < |funcs| && 0 <= k < |species| && funcs[i].Encoded?
        ensures species[k] in funcs[i].encoding
      {
        assert funcs[i].encoding == enc;
      }
    }
    StandardArrayMeaning(funcs, species, elementary);
  }

  /** `set(site_space) != set(basis_functions.species)` raises ValueError. */
  function SpeciesCheck(siteSpecies: seq<Species>, iteratorSpecies: seq<Species>): (r: Outcome)
    ensures r.Pass? <==> (set s | s in siteSpecies) == (set s | s in iteratorSpecies)
    ensures r.Fail? ==> r.error.ValueError?
  {
    if (set s | s in siteSpecies) != (set s | s in iteratorSpecies) then
      Fail(ValueError("Basis function iterator provided does not contain all species in the site space provided."))
    else Pass
  }

  /** After the species check every function can be called on every species of the site space. */
  lemma CheckedSpeciesEncode(siteSpecies: seq<Species>, kind: IteratorKind, species: seq<Species>, grid: seq<real>)
    requires Distinct(species) && |grid| == |species|
    requires SpeciesCheck(siteSpecies, species).Pass?
    ensures Encodes(IteratorFunctions(kind, species, grid), siteSpecies)
  {
    var funcs := IteratorFunctions(kind, species, grid);
    forall i, k | 0 <= i < |funcs| && 0 <= k < |siteSpecies| && funcs[i].Encoded?
      ensures siteSpecies[k] in funcs[i].encoding
    {
      assert siteSpecies[k] in (set s | s in siteSpecies);
    }
  }

  /** `|m|` rows of `cols` entries each. */
  predicate IsMatrix(m: seq<seq<real>>, rows: nat, cols: nat) {
    |m| == rows && forall i :: 0 <= i < |m| ==> |m[i]| == cols
  }

  function Dot(a: seq<real>, b: seq<real>): real
    requires |a| == |b|
    decreases |a|
  {
    if a == [] then 0.0 else a[0] * b[0] + Dot(a[1..], b[1..])
  }

  /** `a @ b.T`: entry `(i, j)` is row `i` of `a` against row `j` of `b`. */
  function TimesTransposed(a: seq<seq<real>>, b: seq<seq<real>>, n: nat): (r: seq<seq<real>>)
    requires IsMatrix(a, |a|, n) && IsMatrix(b, |b|, n)
    ensures IsMatrix(r, |a|, |b|)
    ensures forall i, j :: 0 <= i < |a| && 0 <= j < |b| ==> r[i][j] == Dot(a[i], b[j])
  {
    seq(|a|, i requires 0 <= i < |a| => seq(|b|, j requires 0 <= j < |b| => Dot(a[i], b[j])))
  }

  function Transpose(m: seq<seq<real>>, rows: nat, cols: nat): (r: seq<seq<real>>)
    requires IsMatrix(m, rows, cols)
    ensures IsMatrix(r, cols, rows)
    ensures forall i, j :: 0 <= i < cols && 0 <= j < rows ==> r[i][j] == m[j][i]
  {
    seq(cols, i requires 0 <= i < cols => seq(rows, j requires 0 <= j < rows => m[j][i]))
  }

  function Negated(v: seq<real>): (r: seq<real>)
    ensures |r| == |v| && forall k :: 0 <= k < |v| ==> r[k] == -v[k]
  {
    seq(|v|, k requires 0 <= k < |v| => -v[k])
  }

  function NegatedAll(m: seq<seq<real>>): (r: seq<seq<real>>)
    ensures |r| == |m| && forall i :: 0 <= i < |m| ==> r[i] == Negated(m[i])
  {
    seq(|m|, i requires 0 <= i < |m| => Negated(m[i]))
  }

  function Abs(i: int): nat {
    if i < 0 then -i else i
  }

  /**
   * The argument checks of `rotate` as written: a binary site space
   * accepts any indices; otherwise equal indices, then an index whose
   * absolute value exceeds `size - 2`, raise ValueError.
   */
  function RotateCheckAsWritten(size: int, index1: int, index2: int): (r: Outcome)
    ensures r.Pass? <==> size == 2 || (index1 != index2 && Abs(index1) <= size - 2 && Abs(index2) <= size - 2)
    ensures r.Fail? ==> r.error.ValueError?
  {
    if size == 2 then Pass
    else if index1 == index2 then Fail(ValueError("Basis function indices cannot be the same!"))
    else if Abs(index1) > size - 2 then Fail(ValueError("Basis index is out of bounds"))
    else if Abs(index2) > size - 2 then Fail(ValueError("Basis index is out of bounds"))
    else Pass
  }

  /** The row of the `size - 1` non-constant functions a Python index names (a negative index counts from the end). */
  function RowOf(size: int, index: int): int {
    if index < 0 then index + (size - 1) else index
  }

  /**
   * With three species the indices 1 and -1 pass the checks as written,
   * yet both name the second function, which would be rotated against
   * itself.
   */
  lemma RotateSameFunctionPasses()
    ensures RotateCheckAsWritten(3, 1, -1).Pass? && RowOf(3, 1) == RowOf(3, -1) == 1
  {
  }

  /**
   * The checks of `rotate` as intended: in bounds, and the two indices
   * name two different functions.
   */
  function RotateCheck(size: int, index1: int, index2: int): (r: Outcome)
    ensures r.Pass? <==> (size == 2 ||
      (Abs(index1) <= size - 2 && Abs(index2) <= size - 2 && RowOf(size, index1) != RowOf(size, index2)))
    ensures r.Pass? && size != 2 ==> 0 <= RowOf(size, index1) < size - 1 && 0 <= RowOf(size, index2) < size - 1
    ensures r.Fail? ==> r.error.ValueError?
    ensures RotateCheckAsWritten(size, index1, index2).Fail? ==> r.Fail?
  {
    match RotateCheckAsWritten(size, index1, index2)
    case Fail(e) => Fail(e)
    case Pass =>
      if size != 2 && RowOf(size, index1) == RowOf(size, index2) then
        Fail(ValueError("Basis function indices cannot be the same!"))
      else Pass
  }

  /**
   * A standard basis: the species of its site space, the function array
   * with the constant row on top and the accumulated rotation.
   */
  class StandardBasis {
    const flavor: string
    const species: seq<Species>
    var fArray: seq<seq<real>>
    var rotArray: seq<seq<real>>

    /** A constant row and at least one function, each a value per species; a square rotation. */
    predicate Valid()
      reads this
    {
      |fArray| >= 2 && IsMatrix(fArray, |fArray|, |species|) && IsMatrix(rotArray, |species|, |species|)
    }

    /** `function_array`: the rows below the constant one. */
    function FunctionArray(): seq<seq<real>>
      reads this
      requires Valid()
    {
      fArray[1..]
    }

    constructor (flavor: string, species: seq<Species>, fArray: seq<seq<real>>)
      requires |fArray| >= 2 && IsMatrix(fArray, |fArray|, |species|)
      ensures Valid() && this.flavor == flavor && this.species == species
      ensures this.fArray == fArray && rotArray == Identity(|species|)
    {
      this.flavor := flavor;
      this.species := species;
      this.fArray := fArray;
      rotArray := Identity(|species|);
    }

    /**
     * `rotate`, given the rotation `R` that the angle and the two
     * normalised functions define. A binary site space only negates the
     * one function and the rotation array. Otherwise the indices are
     * checked; when they pass, the functions become `f @ R.T` and the
     * rotation array `R @ rot`; when they fail nothing changes.
     */
    method Rotate(index1: int, index2: int, rotation: seq<seq<real>>) returns (out: Outcome)
      requires Valid() && IsMatrix(rotation, |species|, |species|)
      modifies this
      ensures Valid()
      ensures out == RotateCheck(|species|, index1, index2)
      ensures |species| == 2 ==> fArray == old(fArray)[1 := Negated(old(fArray)[1])] && rotArray == NegatedAll(old(rotArray))
      ensures |species| != 2 && out.Fail? ==> fArray == old(fArray) && rotArray == old(rotArray)
      ensures |species| != 2 && out.Pass? ==>
        fArray == [old(fArray)[0]] + TimesTransposed(old(fArray)[1..], rotation, |species|)
        && rotArray == TimesTransposed(rotation, Transpose(old(rotArray), |species|, |species|), |species|)
    {
      var n := |species|;
      out := RotateCheck(n, index1, index2);
      if n == 2 {
        fArray := fArray[1 := Negated(fArray[1])];
        rotArray := NegatedAll(rotArray);
      } else if out.Pass? {
        fArray := [fArray[0]] + TimesTransposed(fArray[1..], rotation, n);
        rotArray := TimesTransposed(rotation, Transpose(rotArray, n, n), n);
      }
    }
  }

  /**
   * `StandardBasis(site_space, basis_functions)`: the basis takes the
   * iterator's flavor; the species check comes first, then
   * the function array (which raises IndexError for fewer than two
   * functions), then the identity as rotation array.
   */
  method NewStandardBasis(siteSpecies: seq<Species>, kind: IteratorKind, species: seq<Species>,
                          grid: seq<real>, elementary: (Elementary, real) -> real)
    returns (r: Result<StandardBasis>)
    requires Distinct(species) && |grid| == |species|
    ensures r.Ok? <==> SpeciesCheck(siteSpecies, species).Pass? && |species| >= 2
    ensures SpeciesCheck(siteSpecies, species).Fail? ==> r.Err? && r.error.ValueError?
    ensures SpeciesCheck(siteSpecies, species).Pass? && |species| < 2 ==> r.Err? && r.error.IndexError?
    ensures r.Ok? ==> (fresh(r.value) && r.value.Valid() && r.value.species == siteSpecies && r.value.flavor == Flavor(kind)
      && Ok(r.value.fArray) == StandardArray(IteratorFunctions(kind, species, grid), siteSpecies, elementary)
      && r.value.rotArray == Identity(|siteSpecies|))
  {
    var check := SpeciesCheck(siteSpecies, species);
    if check.Fail? {
      return Err(check.error);
    }
    var funcs := IteratorFunctions(kind, species, grid);
    CheckedSpeciesEncode(siteSpecies, kind, species, grid);
    StandardArrayMeaning(funcs, siteSpecies, elementary);
    var arr := StandardArray(funcs, siteSpecies, elementary);
    if arr.Err? {
      return Err(arr.error);
    }
    var b := new StandardBasis(Flavor(kind), siteSpecies, arr.value);
    r := Ok(b);
  }

  /** `c.upper()` on ASCII letters. */
  function Upper(c: char): char {
    if 'a' <= c <= 'z' then (c as int - 32) as char else c
  }

  /** `c.lower()` on ASCII letters. */
  function Lower(c: char): char {
    if 'A' <= c <= 'Z' then (c as int + 32) as char else c
  }

  function LowerAll(s: string): (r: string)
    ensures |r| == |s| && forall i :: 0 <= i < |s| ==> r[i] == Lower(s[i])
  {
    seq(|s|, i requires 0 <= i < |s| => Lower(s[i]))
  }

  /** `str.capitalize`: the first letter upper case, the rest lower case. */
  function Capitalize(s: string): string {
    if s == [] then [] else [Upper(s[0])] + LowerAll(s[1..])
  }

  /** The iterator class name `basis_factory` looks up: `basis_name.capitalize() + 'Iterator'`. */
  function IteratorName(basisName: string): string {
    Capitalize(basisName) + "Iterator"
  }

  /** Letters of either case fold to the same upper-case letter. */
  lemma UpperOfLower(c: char)
    ensures Upper(Lower(c)) == Upper(c)
  {
  }

  /**
   * The name does not depend on the case in which the basis is spelled:
   * two names that agree once lower-cased give the same iterator name,
   * which ends in "Iterator" and is one letter longer per letter of the name.
   */
  lemma IteratorNameIgnoresCase(a: string, b: string)
    requires |a| == |b| && forall i :: 0 <= i < |a| ==> Lower(a[i]) == Lower(b[i])
    ensures IteratorName(a) == IteratorName(b)
    ensures |IteratorName(a)| == |a| + 8 && IteratorName(a)[|a|..] == "Iterator"
  {
    if a != [] {
      UpperOfLower(a[0]);
      UpperOfLower(b[0]);
      assert LowerAll(a[1..]) == LowerAll(b[1..]);
    }
  }

  /** The class `basis_factory` resolves a basis name to, if the module defines one. */
  function IteratorFor(basisName: string): (r: Option<IteratorKind>)
    ensures r == Some(IndicatorIterator) <==> IteratorName(basisName) == "IndicatorIterator"
    ensures r == Some(SinusoidIterator) <==> IteratorName(basisName) == "SinusoidIterator"
    ensures r == Some(NumpyPolyIterator(Power)) <==> IteratorName(basisName) == "PolynomialIterator"
    ensures r == Some(NumpyPolyIterator(Chebyshev)) <==> IteratorName(basisName) == "ChebyshevIterator"
    ensures r == Some(NumpyPolyIterator(Legendre)) <==> IteratorName(basisName) == "LegendreIterator"
  {
    var name := IteratorName(basisName);
    if name == "IndicatorIterator" then Some(IndicatorIterator)
    else if name == "SinusoidIterator" then Some(SinusoidIterator)
    else if name == "PolynomialIterator" then Some(NumpyPolyIterator(Power))
    else if name == "ChebyshevIterator" then Some(NumpyPolyIterator(Chebyshev))
    else if name == "LegendreIterator" then Some(NumpyPolyIterator(Legendre))
    else None
  }

  /** A name in lower case is capitalized by raising its first letter alone. */
  lemma CapitalizeLowerCase(s: string)
    requires s != [] && forall i :: 0 <= i < |s| ==> !('A' <= s[i] <= 'Z')
    ensures Capitalize(s) == [Upper(s[0])] + s[1..]
  {
    assert LowerAll(s[1..]) == s[1..];
  }

  /** The iterator name of a lower-case flavor. */
  lemma FlavorName(flavor: string, name: string)
    requires flavor != [] && forall i :: 0 <= i < |flavor| ==> !('A' <= flavor[i] <= 'Z')
    requires name == [Upper(flavor[0])] + flavor[1..] + "Iterator"
    ensures IteratorName(flavor) == name
  {
    CapitalizeLowerCase(flavor);
  }

  /** The `flavor` class attribute of each iterator. */
  function Flavor(kind: IteratorKind): string {
    match kind
    case IndicatorIterator => "indicator"
    case SinusoidIterator => "sinusoid"
    case NumpyPolyIterator(Power) => "polynomial"
    case NumpyPolyIterator(Chebyshev) => "chebyshev"
    case NumpyPolyIterator(Legendre) => "legendre"
  }

  /** The standard iterators' flavors, each resolved by `basis_factory` to its own iterator. */
  lemma IndicatorFlavorResolves()
    ensures IteratorFor("indicator") == Some(IndicatorIterator)
  {
    FlavorName("indicator", "IndicatorIterator");
  }

  lemma SinusoidFlavorResolves()
    ensures IteratorFor("sinusoid") == Some(SinusoidIterator)
  {
    FlavorName("sinusoid", "SinusoidIterator");
  }

  lemma PolynomialFlavorResolves()
    ensures IteratorFor("polynomial") == Some(NumpyPolyIterator(Power))
  {
    FlavorName("polynomial", "PolynomialIterator");
  }

  lemma ChebyshevFlavorResolves()
    ensures IteratorFor("chebyshev") == Some(NumpyPolyIterator(Chebyshev))
  {
    FlavorName("chebyshev", "ChebyshevIterator");
  }

  lemma LegendreFlavorResolves()
    ensures IteratorFor("legendre") == Some(NumpyPolyIterator(Legendre))
  {
    FlavorName("legendre", "LegendreIterator");
  }

  /** Each iterator's flavor, the name a basis records, leads `basis_factory` back to that iterator. */
  lemma FlavorRoundTrip(kind: IteratorKind)
    ensures IteratorFor(Flavor(kind)) == Some(kind)
  {
    match kind
    case IndicatorIterator => IndicatorFlavorResolves();
    case SinusoidIterator => SinusoidFlavorResolves();
    case NumpyPolyIterator(Power) => PolynomialFlavorResolves();
    case NumpyPolyIterator(Chebyshev) => ChebyshevFlavorResolves();
    case NumpyPolyIterator(Legendre) => LegendreFlavorResolves();
  }

  /**
   * `basis_factory(basis_name, site_space)` for a name the module defines
   * an iterator for: the iterator runs over the site space's own species,
   * so the species check passes and a basis is built whenever there are
   * two species or more.
   */
  method BasisFactory(basisName: string, siteSpecies: seq<Species>, grid: seq<real>, elementary: (Elementary, real) -> real)
    returns (r: Result<StandardBasis>)
    requires IteratorFor(basisName).Some? && Distinct(siteSpecies) && |grid| == |siteSpecies|
    ensures r.Ok? <==> |siteSpecies| >= 2
    ensures r.Ok? ==> (fresh(r.value) && r.value.Valid() && r.value.species == siteSpecies
      && r.value.flavor == Flavor(IteratorFor(basisName).value)
      && |r.value.FunctionArray()| == |siteSpecies| - 1)
    ensures r.Ok? ==>
      && Ok(r.value.fArray) == StandardArray(IteratorFunctions(IteratorFor(basisName).value, siteSpecies, grid), siteSpecies, elementary)
      && r.value.rotArray == Identity(|siteSpecies|)
  {
    var kind := IteratorFor(basisName).value;
    r := NewStandardBasis(siteSpecies, kind, siteSpecies, grid, elementary);
    if r.Ok? {
      StandardArrayMeaning(IteratorFunctions(kind, siteSpecies, grid), siteSpecies, elementary);
    }
  }

  /**
   * The class `DiscreteBasis.from_dict` hands the dict to: a registered
   * subclass by its name; the legacy name "SiteBasis" as the standard
   * basis; any other name raises NameError.
   */
  function FromDictClass(className: string, subclasses: seq<string>): (r: Result<string>)
    ensures className in subclasses ==> r == Ok(className)
    ensures className !in subclasses && className == "SiteBasis" ==> r == Ok("StandardBasis")
    ensures r.Err? <==> className !in subclasses && className != "SiteBasis"
    ensures r.Err? ==> r.error.NameError?
  {
    if className in subclasses then Ok(className)
    else if className == "SiteBasis" then Ok("StandardBasis")
    else Err(NameError(className + " is not implemented or is not a subclass of DiscreteBasis."))
  }
}
