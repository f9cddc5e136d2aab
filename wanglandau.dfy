/**
 * The Wang–Landau kernel: energies fall into bins of a fixed width from
 * the window's lower end; each bin holds, per walker, an entropy and a
 * histogram count. A step is accepted on the entropy difference between
 * the current and the proposed bin, and the bin the walker ends in gains
 * the walker's modification factor and one count. After every full pass
 * over the walkers a counter advances and, every `check_period` passes,
 * each walker whose histogram is flat gets a smaller modification factor
 * and a cleared histogram.
 */
module WangLandau {
  import opened Errors
  import opened Flips
  import opened Traces
  import opened Kernels

  /** Python's `int(x // y)` on floats. */
  function FloorDiv(x: real, y: real): int
    requires y != 0.0
  {
    (x / y).Floor
  }

  /**
   * The constructor's own checks, in the order the source makes them,
   * before the base constructor checks the usher and runs the initial
   * step.
   */
  function ConstructorCheck(minEnergy: real, maxEnergy: real, modFactor: real, fixedWindow: bool, binSize: real): (r: Outcome)
    ensures r.Pass? <==> minEnergy <= maxEnergy && modFactor > 0.0 && !fixedWindow && binSize != 0.0
    ensures minEnergy > maxEnergy ==> r.Fail? && r.error.ValueError?
    ensures minEnergy <= maxEnergy && modFactor <= 0.0 ==> r.Fail? && r.error.ValueError?
    ensures minEnergy <= maxEnergy && modFactor > 0.0 && fixedWindow ==> r.Fail? && r.error.NotImplementedError?
    ensures minEnergy <= maxEnergy && modFactor > 0.0 && !fixedWindow && binSize == 0.0 ==> r.Fail? && r.error.ZeroDivisionError?
  {
    if minEnergy > maxEnergy then Fail(ValueError("min_energy can not be larger than max_energy."))
    else if modFactor <= 0.0 then Fail(ValueError("mod_factor must be greater than 0."))
    else if fixedWindow then Fail(NotImplementedError("fixed_window=True is not implemented. If you need this, consider doing a PR."))
    else if binSize == 0.0 then Fail(ZeroDivisionError("float floor division by zero"))
    else Pass
  }

  /** The initial step's read of walker 0's energy when there are no walkers. */
  const NoWalkerMsg: string := "index 0 is out of bounds for axis 0 with size 0"

  /** The step names this kernel accepts, mapped to their usher class names. */
  const ValidUshers: Dict<string> := [("flip", "Flipper"), ("swap", "Swapper")]

  /** The values of a dictionary, in order. */
  function Values(d: Dict<string>): (r: seq<string>)
    ensures |r| == |d| && forall i :: 0 <= i < |d| ==> r[i] == d[i].1
  {
    seq(|d|, i requires 0 <= i < |d| => d[i].1)
  }

  /** The usher setter as written: `in` on the dictionary compares the class name with the step names. */
  function UsherCheckAsWritten(className: string): (r: Outcome)
    ensures r.Pass? <==> className == "flip" || className == "swap"
  {
    assert Keys(ValidUshers) == ["flip", "swap"];
    CheckHelper(className, Keys(ValidUshers))
  }

  /** Every usher class the kernel lists is refused by the check as written. */
  lemma WangLandauRejectsItsUshers()
    ensures forall i :: 0 <= i < |ValidUshers| ==> UsherCheckAsWritten(ValidUshers[i].1).Fail?
  {
    assert Keys(ValidUshers) == ["flip", "swap"];
  }

  /** The usher setter as intended: the class name must be one of the listed classes. */
  function UsherCheck(className: string): (r: Outcome)
    ensures r.Pass? <==> exists i :: 0 <= i < |ValidUshers| && ValidUshers[i].1 == className
  {
    CheckHelper(className, Values(ValidUshers))
  }

  /** The corrected check admits exactly the listed usher classes. */
  lemma WangLandauAcceptsItsUshers()
    ensures forall i :: 0 <= i < |ValidUshers| ==> UsherCheck(ValidUshers[i].1).Pass?
  {
  }

  /** One entropy/histogram pair per walker, all zero: a fresh bin. */
  function Zeros(n: nat): (r: seq<(real, real)>)
    ensures |r| == n && forall i :: 0 <= i < n ==> r[i] == (0.0, 0.0)
  {
    seq(n, i => (0.0, 0.0))
  }

  /** The per-walker states of a bin, a fresh one if the bin was never visited (`defaultdict`). */
  function Level(aux: map<int, seq<(real, real)>>, b: int, n: nat): seq<(real, real)> {
    if b in aux then aux[b] else Zeros(n)
  }

  /** Every bin holds one state per walker. */
  predicate Rows(aux: map<int, seq<(real, real)>>, n: nat) {
    forall b :: b in aux ==> |aux[b]| == n
  }

  /** The bins `0 .. nbins - 1` the constructor creates. */
  function InitialBins(nbins: int, n: nat): (r: map<int, seq<(real, real)>>)
    ensures forall b :: b in r <==> 0 <= b < nbins
    ensures forall b :: b in r ==> r[b] == Zeros(n)
    decreases nbins
  {
    if nbins <= 0 then map[] else InitialBins(nbins - 1, n)[nbins - 1 := Zeros(n)]
  }

  lemma Element(s: set<int>) returns (x: int)
    requires s != {}
    ensures x in s
  {
    if forall y :: y !in s {
      assert false;
    }
    x :| x in s;
  }

  lemma {:induction false} MinExists(s: set<int>)
    requires s != {}
    ensures exists m :: m in s && forall y :: y in s ==> m <= y
    decreases |s|
  {
    var x := Element(s);
    if s == {x} {
      assert forall y :: y in s ==> x <= y;
    } else {
      var rest := s - {x};
      assert s == rest + {x};
      MinExists(rest);
      var m :| m in rest && forall y :: y in rest ==> m <= y;
      var least := if x < m then x else m;
      assert forall y :: y in s ==> least <= y;
    }
  }

  /** The smallest element of a non-empty set. */
  function MinOf(s: set<int>): (m: int)
    requires s != {}
    ensures m in s && forall y :: y in s ==> m <= y
  {
    MinExists(s);
    var m :| m in s && forall y :: y in s ==> m <= y;
    m
  }

  /** The keys of a set in ascending order (`sorted(d.keys())`). */
  function SortedKeys(s: set<int>): (r: seq<int>)
    ensures |r| == |s| && forall x :: x in r <==> x in s
    ensures forall i, j :: 0 <= i < j < |r| ==> r[i] < r[j]
    decreases |s|
  {
    if s == {} then []
    else
      var m := MinOf(s);
      var rest := SortedKeys(s - {m});
      assert forall j :: 0 <= j < |rest| ==> m < rest[j];
      [m] + rest
  }

  /** `histograms`: row `w` lists walker `w`'s counts over the bins in ascending order. */
  function Histograms(aux: map<int, seq<(real, real)>>, n: nat): (h: seq<seq<real>>)
    requires Rows(aux, n)
    ensures |h| == n && forall w :: 0 <= w < n ==> |h[w]| == |aux|
  {
    var keys := SortedKeys(aux.Keys);
    seq(n, w requires 0 <= w < n => seq(|keys|, k requires 0 <= k < |keys| => aux[keys[k]][w].1))
  }

  function Sum(xs: seq<real>): real
    decreases |xs|
  {
    if xs == [] then 0.0 else Sum(xs[..|xs| - 1]) + xs[|xs| - 1]
  }

  /** `mean` of a non-empty row. */
  function Mean(xs: seq<real>): real
    requires xs != []
  {
    Sum(xs) / (|xs| as real)
  }

  /** A matrix whose rows all have `width` entries. */
  predicate Rectangular(h: seq<seq<real>>, width: nat) {
    forall w :: 0 <= w < |h| ==> |h[w]| == width
  }

  /**
   * The flatness test as written: `(H > flatness * H.mean(axis=1)).all(axis=1)`
   * on the walkers-by-bins matrix `H`. The vector of walker means is
   * broadcast along the BIN axis, so bin `j` of every walker is compared with
   * walker `j`'s mean; the shapes only combine when there is one walker, one
   * bin, or as many bins as walkers. With no bins the row mean has no axis.
   */
  function FlatAsWritten(h: seq<seq<real>>, bins: nat, flatness: real): (r: Result<seq<bool>>)
    requires Rectangular(h, bins)
    ensures r.Ok? ==> |r.value| == |h|
  {
    var walkers := |h|;
    var width := if walkers == 1 then bins else walkers;
    if bins == 0 then Err(ValueError("axis 1 is out of bounds for array of dimension 1"))
    else if !(bins == walkers || bins == 1 || walkers == 1) then Err(ValueError("operands could not be broadcast together"))
    else
      Ok(seq(walkers, i requires 0 <= i < walkers =>
        forall j :: 0 <= j < width ==> BroadcastCell(h, bins, flatness, i, j)))
  }

  /**
   * Entry `(i, j)` of the broadcast comparison: walker `i`'s count in bin
   * `j` (or its only bin) against `flatness` times the mean of walker `j`
   * (or of the only walker).
   */
  predicate BroadcastCell(h: seq<seq<real>>, bins: nat, flatness: real, i: nat, j: nat)
    requires Rectangular(h, bins) && bins > 0 && i < |h|
    requires bins == 1 || j < bins
    requires |h| == 1 || j < |h|
  {
    h[i][if bins == 1 then 0 else j] > flatness * Mean(h[if |h| == 1 then 0 else j])
  }

  lemma SumTwo(a: real, b: real)
    ensures Sum([a, b]) == a + b
  {
    assert [a][..0] == [];
    assert Sum([a]) == Sum([]) + a;
    assert [a, b][..1] == [a];
    assert Sum([a, b]) == Sum([a]) + b;
  }

  /**
   * Two walkers, each with an even histogram over two bins: the check as
   * written finds the first walker not flat, because its counts are set
   * against the second walker's mean.
   */
  lemma FlatnessComparesOtherWalkers()
    ensures FlatAsWritten([[1.0, 1.0], [10.0, 10.0]], 2, 0.8) == Ok([false, true])
    ensures FlatPerWalker([[1.0, 1.0], [10.0, 10.0]], 2, 0.8) == Ok([true, true])
  {
    var h := [[1.0, 1.0], [10.0, 10.0]];
    SumTwo(1.0, 1.0);
    SumTwo(10.0, 10.0);
    assert Mean(h[0]) == 1.0 && Mean(h[1]) == 10.0;
    var r := FlatAsWritten(h, 2, 0.8).value;
    assert !BroadcastCell(h, 2, 0.8, 0, 1);
    assert !r[0];
    assert BroadcastCell(h, 2, 0.8, 1, 0) && BroadcastCell(h, 2, 0.8, 1, 1);
    assert r == [false, true];
    var q := FlatPerWalker(h, 2, 0.8).value;
    assert q[0] && q[1];
    assert q == [true, true];
  }

  /** Two walkers over three bins: the check as written cannot broadcast at all. */
  lemma FlatnessShapeMismatch()
    ensures FlatAsWritten([[1.0, 1.0, 1.0], [1.0, 1.0, 1.0]], 3, 0.8).Err?
  {
  }

  /**
   * The flatness test as intended: a walker is flat when each of its bin
   * counts exceeds `flatness` times its own mean count.
   */
  function FlatPerWalker(h: seq<seq<real>>, bins: nat, flatness: real): (r: Result<seq<bool>>)
    requires Rectangular(h, bins)
    ensures r.Ok? <==> bins > 0
    ensures r.Ok? ==> (|r.value| == |h|
      && forall i :: 0 <= i < |h| ==> (r.value[i] <==> forall j :: 0 <= j < bins ==> h[i][j] > flatness * Mean(h[i])))
  {
    if bins == 0 then Err(ValueError("axis 1 is out of bounds for array of dimension 1"))
    else Ok(seq(|h|, i requires 0 <= i < |h| => forall j :: 0 <= j < bins ==> h[i][j] > flatness * Mean(h[i])))
  }

  /** The sum of a constant row. */
  lemma {:induction false} SumConstant(xs: seq<real>, c: real)
    requires forall j :: 0 <= j < |xs| ==> xs[j] == c
    ensures Sum(xs) == (|xs| as real) * c
    decreases |xs|
  {
    if xs != [] {
      SumConstant(xs[..|xs| - 1], c);
    }
  }

  /**
   * An even histogram with a positive count is flat for every flatness
   * below one, whatever the other walkers hold.
   */
  lemma EvenHistogramIsFlat(h: seq<seq<real>>, bins: nat, flatness: real, i: nat, c: real)
    requires Rectangular(h, bins) && bins > 0 && i < |h|
    requires c > 0.0 && flatness < 1.0
    requires forall j :: 0 <= j < bins ==> h[i][j] == c
    ensures FlatPerWalker(h, bins, flatness).value[i]
  {
    var row := h[i];
    assert |row| == bins;
    MeanConstant(row, c);
    var m := Mean(row);
    BelowOne(flatness, m);
    forall j | 0 <= j < bins ensures h[i][j] > flatness * m {
      assert row[j] == m;
      Exceeds(row[j], flatness, m);
    }
    FlatPoint(h, bins, flatness, i);
  }

  /** The mean of a constant non-empty row is that constant. */
  lemma MeanConstant(xs: seq<real>, c: real)
    requires xs != [] && forall j :: 0 <= j < |xs| ==> xs[j] == c
    ensures Mean(xs) == c
  {
    SumConstant(xs, c);
  }

  lemma Exceeds(x: real, f: real, m: real)
    requires x == m && f * m < m
    ensures x > f * m
  {
  }

  lemma BelowOne(f: real, c: real)
    requires f < 1.0 && c > 0.0
    ensures f * c < c
  {
    assert c - f * c == (1.0 - f) * c;
    MultiplyStrict(0.0, 1.0 - f, c);
  }

  /** One walker's entry of the intended test. */
  lemma FlatPoint(h: seq<seq<real>>, bins: nat, flatness: real, i: nat)
    requires Rectangular(h, bins) && bins > 0 && i < |h|
    ensures FlatPerWalker(h, bins, flatness).value[i] <==> forall j :: 0 <= j < bins ==> h[i][j] > flatness * Mean(h[i])
  {
  }

  /** Walker `w`'s histogram count set to zero in every bin; entropies kept. */
  function ClearWalker(aux: map<int, seq<(real, real)>>, w: nat, n: nat): (r: map<int, seq<(real, real)>>)
    requires Rows(aux, n) && w < n
    ensures r.Keys == aux.Keys && Rows(r, n)
    ensures forall b, v :: b in r && 0 <= v < n ==> r[b][v] == (if v == w then (aux[b][v].0, 0.0) else aux[b][v])
  {
    map b | b in aux :: aux[b][w := (aux[b][w].0, 0.0)]
  }

  /**
   * The reset after a flatness check: every flat walker's factor is
   * replaced by the update of it and its histogram is cleared; entropies
   * and the other walkers are kept.
   */
  method ApplyFlatness(mfactors: seq<real>, aux: map<int, seq<(real, real)>>, flat: seq<bool>, update: real -> real)
    returns (mf: seq<real>, aux2: map<int, seq<(real, real)>>)
    requires |mfactors| == |flat| && Rows(aux, |flat|)
    ensures FlatnessApplied(mfactors, aux, flat, update, mf, aux2)
  {
    var n := |flat|;
    mf := mfactors;
    aux2 := aux;
    var i := 0;
    while i < n
      invariant 0 <= i <= n
      invariant |mf| == n && forall k :: 0 <= k < n ==> mf[k] == (if k < i && flat[k] then update(mfactors[k]) else mfactors[k])
      invariant ClearedUpTo(aux, aux2, flat, i)
    {
      ClearStep(aux, aux2, flat, i);
      if flat[i] {
        mf := mf[i := update(mf[i])];
        aux2 := ClearWalker(aux2, i, n);
      }
      i := i + 1;
    }
  }

  /** The reset that follows the intended flatness test of every walker's histogram. */
  predicate FlatReset(mfactors: seq<real>, aux: map<int, seq<(real, real)>>, flatness: real, update: real -> real,
                      mf: seq<real>, aux2: map<int, seq<(real, real)>>)
    requires Rows(aux, |mfactors|) && |aux| > 0
  {
    FlatnessApplied(mfactors, aux, FlatPerWalker(Histograms(aux, |mfactors|), |aux|, flatness).value, update, mf, aux2)
  }

  /**
   * The flatness check on every walker's histogram, followed by the reset
   * of the flat walkers.
   */
  method CheckFlatness(mfactors: seq<real>, aux: map<int, seq<(real, real)>>, flatness: real, update: real -> real)
    returns (mf: seq<real>, aux2: map<int, seq<(real, real)>>)
    requires Rows(aux, |mfactors|) && |aux| > 0
    ensures |mf| == |mfactors| && Rows(aux2, |mfactors|)
    ensures FlatReset(mfactors, aux, flatness, update, mf, aux2)
  {
    var flat := FlatPerWalker(Histograms(aux, |mfactors|), |aux|, flatness).value;
    mf, aux2 := ApplyFlatness(mfactors, aux, flat, update);
  }

  /**
   * The bins after a walker's visit: the bins `b` and `nb` exist (new ones
   * at zero), and in bin `fin` the walker's entropy gains `mf` and its
   * histogram one count; every other entry is as before.
   */
  function Visit(aux: map<int, seq<(real, real)>>, b: int, nb: int, fin: int, w: nat, mf: real, n: nat)
    : (r: map<int, seq<(real, real)>>)
    requires Rows(aux, n) && w < n && (fin == b || fin == nb)
    ensures r.Keys == aux.Keys + {b, nb} && Rows(r, n)
    ensures forall k, v :: k in r && 0 <= v < n ==>
      r[k][v] == (if k == fin && v == w then (Level(aux, k, n)[v].0 + mf, Level(aux, k, n)[v].1 + 1.0) else Level(aux, k, n)[v])
  {
    var a := aux[b := Level(aux, b, n)][nb := Level(aux, nb, n)];
    var s := a[fin][w];
    a[fin := a[fin][w := (s.0 + mf, s.1 + 1.0)]]
  }

  /** The flat walkers before `i` have cleared counts; everything else is as in `aux`. */
  predicate ClearedUpTo(aux: map<int, seq<(real, real)>>, aux2: map<int, seq<(real, real)>>, flat: seq<bool>, i: nat)
    requires Rows(aux, |flat|)
  {
    && aux2.Keys == aux.Keys && Rows(aux2, |flat|)
    && forall b, k :: b in aux2 && 0 <= k < |flat| ==>
         aux2[b][k] == (if k < i && flat[k] then (aux[b][k].0, 0.0) else aux[b][k])
  }

  /** Clearing walker `i` when it is flat extends the cleared prefix by one. */
  lemma ClearStep(aux: map<int, seq<(real, real)>>, aux2: map<int, seq<(real, real)>>, flat: seq<bool>, i: nat)
    requires Rows(aux, |flat|) && i < |flat| && ClearedUpTo(aux, aux2, flat, i)
    ensures ClearedUpTo(aux, if flat[i] then ClearWalker(aux2, i, |flat|) else aux2, flat, i + 1)
  {
    var next := if flat[i] then ClearWalker(aux2, i, |flat|) else aux2;
    forall b, k | b in next && 0 <= k < |flat|
      ensures next[b][k] == (if k < i + 1 && flat[k] then (aux[b][k].0, 0.0) else aux[b][k])
    {
      ClearedAt(aux, aux2, flat, i, b, k);
    }
  }

  lemma ClearedAt(aux: map<int, seq<(real, real)>>, aux2: map<int, seq<(real, real)>>, flat: seq<bool>, i: nat, b: int, k: nat)
    requires Rows(aux, |flat|) && ClearedUpTo(aux, aux2, flat, i) && b in aux2 && k < |flat|
    ensures aux2[b][k] == (if k < i && flat[k] then (aux[b][k].0, 0.0) else aux[b][k])
  {
  }

  /**
   * The state after the reset: a flat walker's factor is updated and its
   * counts are zero in every bin with its entropies kept; other walkers
   * and the set of bins are unchanged.
   */
  predicate FlatnessApplied(mfactors: seq<real>, aux: map<int, seq<(real, real)>>, flat: seq<bool>, update: real -> real,
                            mf: seq<real>, aux2: map<int, seq<(real, real)>>)
    requires |mfactors| == |flat| && Rows(aux, |flat|)
  {
    && |mf| == |flat| && (forall i :: 0 <= i < |flat| ==> mf[i] == (if flat[i] then update(mfactors[i]) else mfactors[i]))
    && aux2.Keys == aux.Keys && Rows(aux2, |flat|)
    && (forall b, i :: b in aux2 && 0 <= i < |flat| ==> aux2[b][i] == (if flat[i] then (aux[b][i].0, 0.0) else aux[b][i]))
  }

  /** The message Python gives for `x % 0`. */
  const ModuloByZero: string := "integer division or modulo by zero"

  class WangLandauKernel {
    const naturalParams: seq<real>
    const flatness: real
    const checkPeriod: int
    const minEnergy: real
    const maxEnergy: real
    const binSize: real
    const nwalkers: nat
    /** `mod_update`, halving by default. */
    const update: real -> real
    var mfactors: seq<real>
    /** Bin number to one `(entropy, histogram)` pair per walker. */
    var aux: map<int, seq<(real, real)>>
    var currentEnergy: seq<real>
    var counter: nat

    predicate Valid()
      reads this
    {
      binSize != 0.0 && nwalkers > 0
      && |mfactors| == nwalkers && |currentEnergy| == nwalkers && Rows(aux, nwalkers)
    }

    /** `_get_bin`: the bin of an energy. */
    function Bin(energy: real): (b: int)
      requires binSize != 0.0
      ensures binSize > 0.0 ==> (b as real) * binSize <= energy - minEnergy < (b as real) * binSize + binSize
    {
      var b := FloorDiv(energy - minEnergy, binSize);
      assert binSize > 0.0 ==> (b as real) * binSize <= energy - minEnergy < (b as real) * binSize + binSize by {
        if binSize > 0.0 {
          FloorScaled(energy - minEnergy, binSize);
        }
      }
      b
    }

    /** `_get_bin_energy`: the lower edge of a bin. */
    function BinEnergy(b: int): (e: real)
      requires binSize != 0.0
      ensures Bin(e) == b
    {
      var e := minEnergy + (b as real) * binSize;
      assert (e - minEnergy) / binSize == b as real;
      e
    }

    /** A positive width puts every energy in the bin whose edge is at or below it, within one width. */
    lemma BinBounds(energy: real)
      requires binSize > 0.0
      ensures BinEnergy(Bin(energy)) <= energy < BinEnergy(Bin(energy)) + binSize
    {
      var f := Bin(energy) as real;
      FloorScaled(energy - minEnergy, binSize);
      assert BinEnergy(Bin(energy)) == minEnergy + f * binSize;
    }

    lemma EdgesIncrease(a: int, b: int)
      requires binSize > 0.0 && a < b
      ensures BinEnergy(a) < BinEnergy(b)
    {
      MultiplyStrict(a as real, b as real, binSize);
    }

    /**
     * `energy_levels`: the lower edges of the bins in ascending bin order;
     * with a positive width they increase, and each level lies in its own
     * bin.
     */
    function EnergyLevels(): (r: seq<real>)
      requires binSize != 0.0
      reads this
      ensures |r| == |aux|
      ensures forall k :: 0 <= k < |r| ==> Bin(r[k]) in aux && r[k] == BinEnergy(SortedKeys(aux.Keys)[k])
    {
      var keys := SortedKeys(aux.Keys);
      seq(|keys|, k requires 0 <= k < |keys| => BinEnergy(keys[k]))
    }

    /** With a positive width the energy levels increase. */
    lemma EnergyLevelsIncrease()
      requires binSize > 0.0
      ensures forall j, k :: 0 <= j < k < |EnergyLevels()| ==> EnergyLevels()[j] < EnergyLevels()[k]
    {
      var keys := SortedKeys(aux.Keys);
      var r := EnergyLevels();
      forall j, k | 0 <= j < k < |r| ensures r[j] < r[k] {
        EdgesIncrease(keys[j], keys[k]);
      }
    }

    /**
     * The kernel after the constructor's checks: bins `0 .. nbins - 1`
     * (with `nbins = int((max - min) // bin_size)`) start at zero for
     * every walker, every walker has the initial factor and zero energy.
     */
    constructor (naturalParams: seq<real>, binSize: real, minEnergy: real, maxEnergy: real, flatness: real,
                 modFactor: real, checkPeriod: int, update: real -> real, nwalkers: nat)
      requires ConstructorCheck(minEnergy, maxEnergy, modFactor, false, binSize).Pass? && nwalkers > 0
      ensures Valid() && counter == 0
      ensures mfactors == seq(nwalkers, i => modFactor) && currentEnergy == seq(nwalkers, i => 0.0)
      ensures aux == InitialBins(FloorDiv(maxEnergy - minEnergy, binSize), nwalkers)
      ensures this.naturalParams == naturalParams && this.binSize == binSize && this.minEnergy == minEnergy
      ensures this.maxEnergy == maxEnergy && this.flatness == flatness && this.checkPeriod == checkPeriod
      ensures this.update == update && this.nwalkers == nwalkers
    {
      this.naturalParams := naturalParams;
      this.binSize := binSize;
      this.minEnergy := minEnergy;
      this.maxEnergy := maxEnergy;
      this.flatness := flatness;
      this.checkPeriod := checkPeriod;
      this.update := update;
      this.nwalkers := nwalkers;
      mfactors := seq(nwalkers, i => modFactor);
      currentEnergy := seq(nwalkers, i => 0.0);
      aux := InitialBins(FloorDiv(maxEnergy - minEnergy, binSize), nwalkers);
      counter := 0;
    }

    /**
     * `single_step` for one walker: the bins of the current and the
     * proposed energy are created if new; the step is accepted when the
     * current bin's entropy minus the proposed bin's is at least `logu`;
     * an accepted step is written and moves the walker's energy; the bin
     * the walker ends in gains the walker's factor in entropy and one
     * histogram count. Nothing else changes.
     */
    method SingleStep(occupancy: array<int>, walker: nat, step: seq<Flip>, dFeatures: seq<real>, logu: real)
      returns (accepted: bool, dEnergy: real)
      requires Valid() && walker < nwalkers && |dFeatures| == |naturalParams| && SitesIn(step, occupancy.Length)
      modifies this, occupancy
      ensures Valid() && mfactors == old(mfactors) && counter == old(counter)
      ensures dEnergy == Dot(naturalParams, dFeatures)
      ensures var e := old(currentEnergy[walker]);
        var b := Bin(e);
        var nb := Bin(e + dEnergy);
        var fin := if accepted then nb else b;
        && (accepted <==> Level(old(aux), b, nwalkers)[walker].0 - Level(old(aux), nb, nwalkers)[walker].0 >= logu)
        && aux.Keys == old(aux.Keys) + {b, nb}
        && (forall k, v :: k in aux && 0 <= v < nwalkers ==>
              aux[k][v] == (if k == fin && v == walker
                            then (Level(old(aux), k, nwalkers)[v].0 + mfactors[walker], Level(old(aux), k, nwalkers)[v].1 + 1.0)
                            else Level(old(aux), k, nwalkers)[v]))
        && currentEnergy == (if accepted then old(currentEnergy)[walker := e + dEnergy] else old(currentEnergy))
      ensures accepted ==> occupancy[..] == Apply(old(occupancy[..]), step)
      ensures !accepted ==> occupancy[..] == old(occupancy[..])
    {
      var energy := currentEnergy[walker];
      var b := Bin(energy);
      var state := Level(aux, b, nwalkers)[walker];
      dEnergy := Dot(naturalParams, dFeatures);
      var newEnergy := energy + dEnergy;
      var nb := Bin(newEnergy);
      var newState := Level(aux, nb, nwalkers)[walker];
      accepted := state.0 - newState.0 >= logu;
      var fin := b;
      if accepted {
        WriteFlips(occupancy, step);
        fin := nb;
        currentEnergy := currentEnergy[walker := newEnergy];
      }
      aux := Visit(aux, b, nb, fin, walker, mfactors[walker], nwalkers);
    }

    /**
     * The end of a pass over the walkers (`iter_steps` after its last
     * step): the counter advances; every `check_period` passes the flat
     * walkers get an updated factor and a cleared histogram. A zero period
     * raises ZeroDivisionError after the counter has advanced.
     */
    method EndPass() returns (out: Outcome)
      requires Valid()
      modifies this
      ensures Valid() && counter == old(counter) + 1 && currentEnergy == old(currentEnergy)
      ensures out.Fail? <==> checkPeriod == 0
      ensures out.Fail? ==> out.error.ZeroDivisionError? && aux == old(aux) && mfactors == old(mfactors)
      ensures out.Pass? && counter % checkPeriod != 0 ==> aux == old(aux) && mfactors == old(mfactors)
      ensures out.Pass? && counter % checkPeriod == 0 && |old(aux)| > 0 ==>
        FlatReset(old(mfactors), old(aux), flatness, update, mfactors, aux)
    {
      var c := counter + 1;
      counter := c;
      if checkPeriod == 0 {
        return Fail(ZeroDivisionError(ModuloByZero));
      }
      out := Pass;
      if c % checkPeriod == 0 && |aux| > 0 {
        var mf, a := CheckFlatness(mfactors, aux, flatness, update);
        mfactors, aux := mf, a;
      }
    }

    /**
     * `set_aux_state` as intended: each walker's energy is the natural
     * parameters dotted with its features; numpy's slice assignment also
     * takes a single energy for all walkers, and any other count raises
     * ValueError.
     */
    method SetAuxState(features: seq<seq<real>>) returns (out: Outcome)
      requires Valid() && forall i :: 0 <= i < |features| ==> |features[i]| == |naturalParams|
      modifies this
      ensures Valid() && aux == old(aux) && mfactors == old(mfactors) && counter == old(counter)
      ensures out.Pass? <==> |features| == nwalkers || |features| == 1
      ensures out.Pass? ==> forall w :: 0 <= w < nwalkers ==>
        currentEnergy[w] == Dot(naturalParams, features[if |features| == 1 then 0 else w])
      ensures out.Fail? ==> out.error.ValueError? && currentEnergy == old(currentEnergy)
    {
      if |features| != nwalkers && |features| != 1 {
        return Fail(ValueError("could not broadcast input array into the walkers' energies"));
      }
      currentEnergy := seq(nwalkers, w requires 0 <= w < nwalkers =>
        Dot(naturalParams, features[if |features| == 1 then 0 else w]));
      out := Pass;
    }
  }

  /** `set_aux_state` as written: the kernel has no `feature_fun`, so the call raises AttributeError. */
  function SetAuxStateAsWritten(occupancies: seq<seq<int>>): (r: Outcome)
    ensures r.Fail? && r.error.AttributeError?
  {
    Fail(AttributeError("'WangLandau' object has no attribute 'feature_fun'"))
  }

  /** No call of `set_aux_state` as written ever sets the energies. */
  lemma SetAuxStateNeverSets(occupancies: seq<seq<int>>)
    ensures SetAuxStateAsWritten(occupancies).Fail? && SetAuxStateAsWritten(occupancies).error.AttributeError?
  {
  }

  /** Scaling back a floored quotient by a positive divisor lands within one divisor below the dividend. */
  lemma FloorScaled(x: real, y: real)
    requires y > 0.0
    ensures (x / y).Floor as real * y <= x < (x / y).Floor as real * y + y
  {
    var q := x / y;
    var f := q.Floor as real;
    assert f <= q < f + 1.0;
    assert q * y == x;
    MultiplyBelow(f, q, y);
    MultiplyStrict(q, f + 1.0, y);
    assert x < (f + 1.0) * y;
    assert (f + 1.0) * y == f * y + y;
    assert f * y <= x;
    assert x < f * y + y;
  }

  lemma MultiplyBelow(a: real, b: real, c: real)
    requires a <= b && c > 0.0
    ensures a * c <= b * c
  {
  }

  lemma MultiplyStrict(a: real, b: real, c: real)
    requires a < b && c > 0.0
    ensures a * c < b * c
  {
  }

  /**
   * The state the constructor's initial step of walker 0 leaves: every
   * bin still holds zeros, except that the bin walker 0 ends in holds the
   * initial factor and one count. All entropies start at zero, so the
   * step is accepted exactly when the draw is not positive.
   */
  predicate AfterInitialStep(aux: map<int, seq<(real, real)>>, currentEnergy: seq<real>, mfactors: seq<real>,
                             minEnergy: real, maxEnergy: real, binSize: real, modFactor: real, nwalkers: nat,
                             dEnergy: real, logu: real)
    requires binSize != 0.0
  {
    var b := FloorDiv(0.0 - minEnergy, binSize);
    var nb := FloorDiv(dEnergy - minEnergy, binSize);
    var fin := if logu <= 0.0 then nb else b;
    && mfactors == seq(nwalkers, i => modFactor)
    && currentEnergy == seq(nwalkers, i => if i == 0 && logu <= 0.0 then dEnergy else 0.0)
    && aux.Keys == InitialBins(FloorDiv(maxEnergy - minEnergy, binSize), nwalkers).Keys + {b, nb}
    && Rows(aux, nwalkers)
    && forall k, v :: k in aux && 0 <= v < nwalkers ==>
         aux[k][v] == (if k == fin && v == 0 then (modFactor, 1.0) else (0.0, 0.0))
  }

  /** A bin of the initial bins, visited or not, holds zeros for every walker. */
  lemma InitialLevel(nbins: int, n: nat, b: int)
    ensures Level(InitialBins(nbins, n), b, n) == Zeros(n)
  {
  }

  /** The constructor's initial step of walker 0, on a zero occupancy of its own, from the state the constructor set up. */
  method InitialStep(k: WangLandauKernel, modFactor: real, numSites: nat, step: seq<Flip>, dFeatures: seq<real>, logu: real)
    requires k.Valid() && |dFeatures| == |k.naturalParams| && SitesIn(step, numSites)
    requires k.mfactors == seq(k.nwalkers, i => modFactor) && k.currentEnergy == seq(k.nwalkers, i => 0.0)
    requires k.aux == InitialBins(FloorDiv(k.maxEnergy - k.minEnergy, k.binSize), k.nwalkers)
    modifies k
    ensures k.Valid() && k.counter == old(k.counter)
    ensures AfterInitialStep(k.aux, k.currentEnergy, k.mfactors, k.minEnergy, k.maxEnergy, k.binSize, modFactor,
                             k.nwalkers, Dot(k.naturalParams, dFeatures), logu)
  {
    var zeros := new int[numSites];
    ghost var aux0 := k.aux;
    ghost var n := k.nwalkers;
    forall b | true ensures Level(aux0, b, n) == Zeros(n) {
      InitialLevel(FloorDiv(k.maxEnergy - k.minEnergy, k.binSize), n, b);
    }
    var accepted, dE := k.SingleStep(zeros, 0, step, dFeatures, logu);
    assert accepted <==> logu <= 0.0;
    assert 0.0 + dE == dE;
  }

  /**
   * Creating the kernel: the constructor's own checks, then the usher
   * check of the base constructor, then its initial step of walker 0 on a
   * zero occupancy, which raises IndexError when there are no walkers.
   */
  method NewWangLandau(naturalParams: seq<real>, usher: string, binSize: real, minEnergy: real, maxEnergy: real,
                       flatness: real, modFactor: real, checkPeriod: int, fixedWindow: bool, update: real -> real,
                       nwalkers: nat, numSites: nat, step: seq<Flip>, dFeatures: seq<real>, logu: real)
    returns (r: Result<WangLandauKernel>)
    requires |dFeatures| == |naturalParams| && SitesIn(step, numSites)
    ensures var c := ConstructorCheck(minEnergy, maxEnergy, modFactor, fixedWindow, binSize);
      && (r.Ok? <==> c.Pass? && UsherCheck(usher).Pass? && nwalkers > 0)
      && (c.Fail? ==> r == Err(c.error))
      && (c.Pass? && UsherCheck(usher).Fail? ==> r == Err(UsherCheck(usher).error))
      && (c.Pass? && UsherCheck(usher).Pass? && nwalkers == 0 ==> r == Err(IndexError(NoWalkerMsg)))
    ensures r.Ok? ==> fresh(r.value) && r.value.Valid() && r.value.counter == 0
    ensures r.Ok? ==> AfterInitialStep(r.value.aux, r.value.currentEnergy, r.value.mfactors, minEnergy, maxEnergy,
                                       binSize, modFactor, nwalkers, Dot(naturalParams, dFeatures), logu)
  {
    var c := ConstructorCheck(minEnergy, maxEnergy, modFactor, fixedWindow, binSize);
    if c.Fail? {
      return Err(c.error);
    }
    var u := UsherCheck(usher);
    if u.Fail? {
      return Err(u.error);
    }
    if nwalkers == 0 {
      return Err(IndexError(NoWalkerMsg));
    }
    var k := new WangLandauKernel(naturalParams, binSize, minEnergy, maxEnergy, flatness, modFactor, checkPeriod, update, nwalkers);
    InitialStep(k, modFactor, numSites, step, dFeatures, logu);
    r := Ok(k);
  }
}
