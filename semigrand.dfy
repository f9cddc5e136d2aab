/**
 * The semi-grand canonical ensemble: the natural parameters gain a fixed
 * -1 for the chemical work, the chemical potentials are checked against
 * the species of the active sublattices, and a dense site x code table of
 * potentials gives the chemical work of an occupancy and its change under
 * a step.
 */
module SemiGrand {
  import opened Errors
  import opened Flips

  /**
   * A group of supercell sites sharing one site space: the species
   * allowed, the site indices, the code of each species and whether moves
   * are proposed on it.
   */
  datatype Sublattice = Sublattice(siteSpace: seq<string>, sites: seq<nat>, encoding: seq<nat>, active: bool)

  /** One code per species, no code twice, no site twice. */
  predicate WellFormed(l: Sublattice) {
    |l.encoding| == |l.siteSpace|
    && (forall a, b :: 0 <= a < b < |l.encoding| ==> l.encoding[a] != l.encoding[b])
    && (forall a, b :: 0 <= a < b < |l.sites| ==> l.sites[a] != l.sites[b])
  }

  /** Every sublattice well formed, its sites inside the supercell, and no site in two of them. */
  predicate Partition(ls: seq<Sublattice>, numSites: nat) {
    (forall i :: 0 <= i < |ls| ==> WellFormed(ls[i]))
    && (forall i, j :: 0 <= i < |ls| && 0 <= j < |ls[i].sites| ==> ls[i].sites[j] < numSites)
    && (forall i, j, s :: 0 <= i < j < |ls| && s in ls[i].sites ==> s !in ls[j].sites)
  }

  /** `natural_parameters`: the processor's coefficients, then -1 for the chemical work. */
  function NaturalParameters(coefs: seq<real>): (p: seq<real>)
    ensures |p| == |coefs| + 1
    ensures p[..|coefs|] == coefs && p[|coefs|] == -1.0
  {
    coefs + [-1.0]
  }

  /** `species`: every species allowed on some active sublattice. */
  function ActiveSpecies(ls: seq<Sublattice>): (r: set<string>)
    ensures forall sp :: sp in r <==> exists i :: 0 <= i < |ls| && ls[i].active && sp in ls[i].siteSpace
  {
    set i, sp | 0 <= i < |ls| && ls[i].active && sp in ls[i].siteSpace :: sp
  }

  // ---------------------------------------------------------------------
  // Chemical potentials: the constructor and the setter
  // ---------------------------------------------------------------------

  /** A dictionary of potentials as given: keys (raw, before normalisation) with values, in order. */
  type Potentials = seq<(string, real)>

  /** A Python dictionary never holds a key twice. */
  predicate DistinctKeys(pots: Potentials) {
    forall a, b :: 0 <= a < b < |pots| ==> pots[a].0 != pots[b].0
  }

  /**
   * `{get_species(k): v for k, v in pots.items()}`: keys normalised; when
   * two keys normalise to the same species the later value wins.
   */
  function Normalize(pots: Potentials, norm: string -> string): (m: map<string, real>)
    ensures forall sp :: sp in m <==> exists a :: 0 <= a < |pots| && norm(pots[a].0) == sp
    decreases |pots|
  {
    if pots == [] then map[]
    else
      var last := pots[|pots| - 1];
      var init := Normalize(pots[..|pots| - 1], norm);
      assert forall a :: 0 <= a < |pots| - 1 ==> pots[..|pots| - 1][a] == pots[a];
      init[norm(last.0) := last.1]
  }

  const MissingSpeciesMsg: string := "Species was not assigned a chemical potential, a value must be provided."
  const DuplicateSpeciesMsg: string := "Values of the chemical potential for the same species were provided."
  const MissingPotentialsMsg: string := "Chemical potentials given are missing species."

  /**
   * The constructor's potentials: every active species must have one
   * (ValueError otherwise); those of species on no active sublattice are
   * dropped.
   */
  function ConstructorPotentials(pots: Potentials, norm: string -> string, ls: seq<Sublattice>): (r: Result<map<string, real>>)
    ensures r.Ok? <==> ActiveSpecies(ls) <= Normalize(pots, norm).Keys
    ensures r.Err? ==> r == Err(ValueError(MissingSpeciesMsg))
    ensures r.Ok? ==> (r.value.Keys == ActiveSpecies(ls)
                       && forall sp :: sp in r.value ==> r.value[sp] == Normalize(pots, norm)[sp])
  {
    var normalized := Normalize(pots, norm);
    if !(ActiveSpecies(ls) <= normalized.Keys) then Err(ValueError(MissingSpeciesMsg))
    else Ok(map sp | sp in normalized && sp in ActiveSpecies(ls) :: normalized[sp])
  }

  /** Two different keys that name the same species once normalised. */
  predicate NormalizedClash(pots: Potentials, norm: string -> string) {
    exists a, b :: 0 <= a < b < |pots| && norm(pots[a].0) == norm(pots[b].0)
  }

  /**
   * The entries the setter keeps: those whose RAW key is an active
   * species, under their normalised key.
   */
  function KeptPotentials(pots: Potentials, norm: string -> string, species: set<string>): (m: map<string, real>)
    ensures forall sp :: sp in m <==> exists a :: 0 <= a < |pots| && pots[a].0 in species && norm(pots[a].0) == sp
    decreases |pots|
  {
    if pots == [] then map[]
    else
      var last := pots[|pots| - 1];
      var init := KeptPotentials(pots[..|pots| - 1], norm, species);
      assert forall a :: 0 <= a < |pots| - 1 ==> pots[..|pots| - 1][a] == pots[a];
      if last.0 in species then init[norm(last.0) := last.1] else init
  }

  /**
   * The `chemical_potentials` setter's checks: two keys naming one species
   * raise ValueError; so does a kept key set that differs from the active
   * species.
   */
  function SetterPotentials(pots: Potentials, norm: string -> string, ls: seq<Sublattice>): (r: Result<map<string, real>>)
    ensures r.Ok? <==> !NormalizedClash(pots, norm) && KeptPotentials(pots, norm, ActiveSpecies(ls)).Keys == ActiveSpecies(ls)
    ensures NormalizedClash(pots, norm) ==> r == Err(ValueError(DuplicateSpeciesMsg))
    ensures r.Err? && !NormalizedClash(pots, norm) ==> r == Err(ValueError(MissingPotentialsMsg))
    ensures r.Ok? ==> r.value.Keys == ActiveSpecies(ls)
  {
    if NormalizedClash(pots, norm) then Err(ValueError(DuplicateSpeciesMsg))
    else
      var kept := KeptPotentials(pots, norm, ActiveSpecies(ls));
      if kept.Keys != ActiveSpecies(ls) then Err(ValueError(MissingPotentialsMsg))
      else Ok(kept)
  }

  // ---------------------------------------------------------------------
  // The chemical potential table
  // ---------------------------------------------------------------------

  /** `max(max(sl.encoding) for sl in sublattices)`; an empty list raises ValueError. */
  function MaxCode(ls: seq<Sublattice>): (r: Result<nat>)
    ensures r.Ok? <==> ls != [] && forall i :: 0 <= i < |ls| ==> ls[i].encoding != []
    ensures r.Ok? ==> forall i, k :: 0 <= i < |ls| && 0 <= k < |ls[i].encoding| ==> ls[i].encoding[k] <= r.value
    ensures r.Ok? ==> exists i, k :: 0 <= i < |ls| && 0 <= k < |ls[i].encoding| && ls[i].encoding[k] == r.value
    decreases |ls|
  {
    if ls == [] then Err(ValueError("max() arg is an empty sequence"))
    else
      var l := ls[|ls| - 1];
      if l.encoding == [] then Err(ValueError("max() arg is an empty sequence"))
      else
        var here := SeqMaxNat(l.encoding);
        if |ls| == 1 then Ok(here)
        else
          var rest := MaxCode(ls[..|ls| - 1]);
          assert forall i :: 0 <= i < |ls| - 1 ==> ls[..|ls| - 1][i] == ls[i];
          if rest.Err? then rest
          else Ok(if rest.value < here then here else rest.value)
  }

  function SeqMaxNat(xs: seq<nat>): (m: nat)
    requires xs != []
    ensures (forall k :: 0 <= k < |xs| ==> xs[k] <= m) && exists k :: 0 <= k < |xs| && xs[k] == m
    decreases |xs|
  {
    if |xs| == 1 then xs[0]
    else
      var rest := SeqMaxNat(xs[..|xs| - 1]);
      assert forall k :: 0 <= k < |xs| - 1 ==> xs[..|xs| - 1][k] == xs[k];
      if xs[|xs| - 1] > rest then xs[|xs| - 1] else rest
  }

  /** A table of `rows` rows of `cols` zeros. */
  function ZeroTable(rows: nat, cols: nat): (t: seq<seq<real>>)
    ensures |t| == rows && forall s :: 0 <= s < rows ==> |t[s]| == cols && forall c :: 0 <= c < cols ==> t[s][c] == 0.0
  {
    seq(rows, _ => seq(cols, _ => 0.0))
  }

  /** The potentials of a sublattice's species, in site-space order (`ordered_pots`). */
  function OrderedPots(l: Sublattice, mus: map<string, real>): (p: seq<real>)
    requires forall sp :: sp in l.siteSpace ==> sp in mus
    ensures |p| == |l.siteSpace| && forall k :: 0 <= k < |p| ==> p[k] == mus[l.siteSpace[k]]
  {
    seq(|l.siteSpace|, k requires 0 <= k < |l.siteSpace| => mus[l.siteSpace[k]])
  }

  /** A row with its first `n` codes set to their potentials. */
  function RowWritten(row: seq<real>, enc: seq<nat>, pots: seq<real>, n: nat): (r: seq<real>)
    requires n <= |enc| == |pots| && forall k :: 0 <= k < |enc| ==> enc[k] < |row|
    ensures |r| == |row|
    decreases n
  {
    if n == 0 then row else RowWritten(row, enc, pots, n - 1)[enc[n - 1] := pots[n - 1]]
  }

  /** With distinct codes, each written code holds its potential and the rest of the row is kept. */
  lemma {:induction false} RowWrittenAt(row: seq<real>, enc: seq<nat>, pots: seq<real>, n: nat)
    requires n <= |enc| == |pots| && forall k :: 0 <= k < |enc| ==> enc[k] < |row|
    requires forall a, b :: 0 <= a < b < |enc| ==> enc[a] != enc[b]
    ensures forall k :: 0 <= k < n ==> RowWritten(row, enc, pots, n)[enc[k]] == pots[k]
    ensures forall c :: 0 <= c < |row| && c !in enc[..n] ==> RowWritten(row, enc, pots, n)[c] == row[c]
    decreases n
  {
    if n > 0 {
      RowWrittenAt(row, enc, pots, n - 1);
      assert enc[..n] == enc[..n - 1] + [enc[n - 1]];
    }
  }

  /** A table with the rows of the first `n` sites of a sublattice written. */
  function SitesWritten(t: seq<seq<real>>, sites: seq<nat>, enc: seq<nat>, pots: seq<real>, n: nat): (r: seq<seq<real>>)
    requires n <= |sites| && |enc| == |pots|
    requires forall j :: 0 <= j < |sites| ==> sites[j] < |t| && forall k :: 0 <= k < |enc| ==> enc[k] < |t[sites[j]]|
    ensures |r| == |t| && forall s :: 0 <= s < |t| ==> |r[s]| == |t[s]|
    decreases n
  {
    if n == 0 then t
    else
      var prev := SitesWritten(t, sites, enc, pots, n - 1);
      var s := sites[n - 1];
      prev[s := RowWritten(prev[s], enc, pots, |enc|)]
  }

  /** With distinct sites, each written site's row is its old row written; other rows are kept. */
  lemma {:induction false} SitesWrittenAt(t: seq<seq<real>>, sites: seq<nat>, enc: seq<nat>, pots: seq<real>, n: nat)
    requires n <= |sites| && |enc| == |pots|
    requires forall j :: 0 <= j < |sites| ==> sites[j] < |t| && forall k :: 0 <= k < |enc| ==> enc[k] < |t[sites[j]]|
    requires forall a, b :: 0 <= a < b < |sites| ==> sites[a] != sites[b]
    ensures forall j :: 0 <= j < n ==> SitesWritten(t, sites, enc, pots, n)[sites[j]] == RowWritten(t[sites[j]], enc, pots, |enc|)
    ensures forall s :: 0 <= s < |t| && s !in sites[..n] ==> SitesWritten(t, sites, enc, pots, n)[s] == t[s]
    decreases n
  {
    if n > 0 {
      SitesWrittenAt(t, sites, enc, pots, n - 1);
      assert sites[..n] == sites[..n - 1] + [sites[n - 1]];
    }
  }

  /** Every code of every sublattice is a column of the table, every site a row. */
  predicate Fits(ls: seq<Sublattice>, rows: nat, cols: nat) {
    forall i :: 0 <= i < |ls| ==>
      |ls[i].encoding| == |ls[i].siteSpace|
      && (forall j :: 0 <= j < |ls[i].sites| ==> ls[i].sites[j] < rows)
      && (forall k :: 0 <= k < |ls[i].encoding| ==> ls[i].encoding[k] < cols)
  }

  /** Every species of an active sublattice has a potential. */
  predicate Covers(mus: map<string, real>, ls: seq<Sublattice>) {
    forall i, sp :: 0 <= i < |ls| && ls[i].active && sp in ls[i].siteSpace ==> sp in mus
  }

  /** Potentials keyed by exactly the active species cover every active sublattice. */
  lemma ActiveKeysCover(mus: map<string, real>, ls: seq<Sublattice>)
    requires mus.Keys == ActiveSpecies(ls)
    ensures Covers(mus, ls)
  {
    forall i, sp | 0 <= i < |ls| && ls[i].active && sp in ls[i].siteSpace ensures sp in mus {
      assert sp in ActiveSpecies(ls);
    }
  }

  /** The table after the first `n` sublattices, active ones written, starting from zeros. */
  function TableWritten(rows: nat, cols: nat, ls: seq<Sublattice>, mus: map<string, real>, n: nat): (t: seq<seq<real>>)
    requires n <= |ls| && Fits(ls, rows, cols) && Covers(mus, ls)
    ensures |t| == rows && forall s :: 0 <= s < rows ==> |t[s]| == cols
    decreases n
  {
    if n == 0 then ZeroTable(rows, cols)
    else
      var prev := TableWritten(rows, cols, ls, mus, n - 1);
      var l := ls[n - 1];
      if !l.active then prev
      else SitesWritten(prev, l.sites, l.encoding, OrderedPots(l, mus), |l.sites|)
  }

  /** Site `s` lies in an active sublattice among the first `n`. */
  predicate InActive(ls: seq<Sublattice>, n: nat, s: nat)
    requires n <= |ls|
  {
    exists i :: 0 <= i < n && ls[i].active && s in ls[i].sites
  }

  /** The last of the first `n` sublattices, when active, writes its sites' rows. */
  lemma TableLastRow(rows: nat, cols: nat, ls: seq<Sublattice>, mus: map<string, real>, n: nat, s: nat)
    requires 0 < n <= |ls| && Fits(ls, rows, cols) && Covers(mus, ls) && Partition(ls, rows)
    requires ls[n - 1].active && s in ls[n - 1].sites
    ensures TableWritten(rows, cols, ls, mus, n)[s]
      == RowWritten(TableWritten(rows, cols, ls, mus, n - 1)[s], ls[n - 1].encoding, OrderedPots(ls[n - 1], mus), |ls[n - 1].encoding|)
  {
    var l := ls[n - 1];
    assert WellFormed(l);
    var prev := TableWritten(rows, cols, ls, mus, n - 1);
    assert l.sites[..|l.sites|] == l.sites;
    SitesWrittenAt(prev, l.sites, l.encoding, OrderedPots(l, mus), |l.sites|);
  }

  /** A site off the last of the first `n` sublattices keeps its row from the first `n - 1`. */
  lemma TableKeepsRow(rows: nat, cols: nat, ls: seq<Sublattice>, mus: map<string, real>, n: nat, s: nat)
    requires 0 < n <= |ls| && Fits(ls, rows, cols) && Covers(mus, ls) && Partition(ls, rows)
    requires s < rows && s !in ls[n - 1].sites
    ensures TableWritten(rows, cols, ls, mus, n)[s] == TableWritten(rows, cols, ls, mus, n - 1)[s]
  {
    var l := ls[n - 1];
    if l.active {
      assert WellFormed(l);
      assert l.sites[..|l.sites|] == l.sites;
      SitesWrittenAt(TableWritten(rows, cols, ls, mus, n - 1), l.sites, l.encoding, OrderedPots(l, mus), |l.sites|);
    }
  }

  /** A site of an active sublattice holds, in each of its codes' columns, that species' potential. */
  lemma {:induction false} TableAtCode(rows: nat, cols: nat, ls: seq<Sublattice>, mus: map<string, real>, n: nat,
                                       i: nat, j: nat, k: nat)
    requires n <= |ls| && Fits(ls, rows, cols) && Covers(mus, ls) && Partition(ls, rows)
    requires i < n && ls[i].active && j < |ls[i].sites| && k < |ls[i].encoding|
    ensures TableWritten(rows, cols, ls, mus, n)[ls[i].sites[j]][ls[i].encoding[k]] == mus[ls[i].siteSpace[k]]
    decreases n
  {
    var s := ls[i].sites[j];
    if i == n - 1 {
      var l := ls[i];
      assert WellFormed(l);
      TableLastRow(rows, cols, ls, mus, n, s);
      RowWrittenAt(TableWritten(rows, cols, ls, mus, n - 1)[s], l.encoding, OrderedPots(l, mus), |l.encoding|);
    } else {
      TableAtCode(rows, cols, ls, mus, n - 1, i, j, k);
      assert s in ls[i].sites;
      TableKeepsRow(rows, cols, ls, mus, n, s);
    }
  }

  /** A site of an active sublattice holds 0 in every column that is none of its codes. */
  lemma {:induction false} TableOffCode(rows: nat, cols: nat, ls: seq<Sublattice>, mus: map<string, real>, n: nat,
                                        i: nat, j: nat, c: nat)
    requires n <= |ls| && Fits(ls, rows, cols) && Covers(mus, ls) && Partition(ls, rows)
    requires i < n && ls[i].active && j < |ls[i].sites| && c < cols && c !in ls[i].encoding
    ensures TableWritten(rows, cols, ls, mus, n)[ls[i].sites[j]][c] == 0.0
    decreases n
  {
    var s := ls[i].sites[j];
    if i == n - 1 {
      var l := ls[i];
      assert WellFormed(l);
      TableOffActive(rows, cols, ls, mus, n - 1, s, c);
      TableLastRow(rows, cols, ls, mus, n, s);
      assert l.encoding[..|l.encoding|] == l.encoding;
      RowWrittenAt(TableWritten(rows, cols, ls, mus, n - 1)[s], l.encoding, OrderedPots(l, mus), |l.encoding|);
    } else {
      TableOffCode(rows, cols, ls, mus, n - 1, i, j, c);
      assert s in ls[i].sites;
      TableKeepsRow(rows, cols, ls, mus, n, s);
    }
  }

  /** A site on none of the first `n` active sublattices keeps a row of zeros. */
  lemma {:induction false} TableOffActive(rows: nat, cols: nat, ls: seq<Sublattice>, mus: map<string, real>, n: nat,
                                          s: nat, c: nat)
    requires n <= |ls| && Fits(ls, rows, cols) && Covers(mus, ls) && Partition(ls, rows)
    requires s < rows && c < cols && !InActive(ls, n, s)
    ensures TableWritten(rows, cols, ls, mus, n)[s][c] == 0.0
    decreases n
  {
    if n > 0 {
      TableOffActive(rows, cols, ls, mus, n - 1, s, c);
      if ls[n - 1].active {
        TableKeepsRow(rows, cols, ls, mus, n, s);
      }
    }
  }

  /**
   * The table's meaning: on a site of an active sublattice the column of
   * each of its codes holds that species' potential, its other columns
   * hold 0; every row of a site on no active sublattice is all zeros.
   */
  lemma TableWrittenMeaning(rows: nat, cols: nat, ls: seq<Sublattice>, mus: map<string, real>)
    requires Fits(ls, rows, cols) && Covers(mus, ls) && Partition(ls, rows)
    ensures forall i, j, k :: 0 <= i < |ls| && ls[i].active && 0 <= j < |ls[i].sites| && 0 <= k < |ls[i].encoding| ==>
      TableWritten(rows, cols, ls, mus, |ls|)[ls[i].sites[j]][ls[i].encoding[k]] == mus[ls[i].siteSpace[k]]
    ensures forall i, j, c :: 0 <= i < |ls| && ls[i].active && 0 <= j < |ls[i].sites| && 0 <= c < cols && c !in ls[i].encoding ==>
      TableWritten(rows, cols, ls, mus, |ls|)[ls[i].sites[j]][c] == 0.0
    ensures forall s, c :: 0 <= s < rows && 0 <= c < cols && !InActive(ls, |ls|, s) ==>
      TableWritten(rows, cols, ls, mus, |ls|)[s][c] == 0.0
  {
    forall i, j, k | 0 <= i < |ls| && ls[i].active && 0 <= j < |ls[i].sites| && 0 <= k < |ls[i].encoding|
      ensures TableWritten(rows, cols, ls, mus, |ls|)[ls[i].sites[j]][ls[i].encoding[k]] == mus[ls[i].siteSpace[k]]
    {
      TableAtCode(rows, cols, ls, mus, |ls|, i, j, k);
    }
    forall i, j, c | 0 <= i < |ls| && ls[i].active && 0 <= j < |ls[i].sites| && 0 <= c < cols && c !in ls[i].encoding
      ensures TableWritten(rows, cols, ls, mus, |ls|)[ls[i].sites[j]][c] == 0.0
    {
      TableOffCode(rows, cols, ls, mus, |ls|, i, j, c);
    }
    forall s, c | 0 <= s < rows && 0 <= c < cols && !InActive(ls, |ls|, s)
      ensures TableWritten(rows, cols, ls, mus, |ls|)[s][c] == 0.0
    {
      TableOffActive(rows, cols, ls, mus, |ls|, s, c);
    }
  }

  /** The columns `max + 1` take every code; a partition's sites are rows. */
  lemma PartitionFits(ls: seq<Sublattice>, numSites: nat)
    requires Partition(ls, numSites) && MaxCode(ls).Ok?
    ensures Fits(ls, numSites, MaxCode(ls).value + 1)
  {
    forall i | 0 <= i < |ls| ensures |ls[i].encoding| == |ls[i].siteSpace| {
      assert WellFormed(ls[i]);
    }
  }

  /** Every site of the sublattice is a row of `t` long enough for each of its codes. */
  predicate RowsFit(t: seq<seq<real>>, l: Sublattice) {
    forall j :: 0 <= j < |l.sites| ==> l.sites[j] < |t| && forall k :: 0 <= k < |l.encoding| ==> l.encoding[k] < |t[l.sites[j]]|
  }

  lemma TableRowsFit(rows: nat, cols: nat, ls: seq<Sublattice>, mus: map<string, real>, n: nat, i: nat)
    requires n <= |ls| && i < |ls| && Fits(ls, rows, cols) && Covers(mus, ls)
    ensures RowsFit(TableWritten(rows, cols, ls, mus, n), ls[i])
  {
  }

  /** Fill the rows of a sublattice's sites (the inner loops of `_build_mu_table`). */
  method FillSublattice(t: seq<seq<real>>, l: Sublattice, pots: seq<real>) returns (r: seq<seq<real>>)
    requires |l.encoding| == |pots| && RowsFit(t, l)
    ensures r == SitesWritten(t, l.sites, l.encoding, pots, |l.sites|)
  {
    r := t;
    var j := 0;
    while j < |l.sites|
      invariant 0 <= j <= |l.sites|
      invariant r == SitesWritten(t, l.sites, l.encoding, pots, j)
    {
      var s := l.sites[j];
      var row := r[s];
      var k := 0;
      while k < |l.encoding|
        invariant 0 <= k <= |l.encoding|
        invariant |row| == |r[s]|
        invariant row == RowWritten(r[s], l.encoding, pots, k)
      {
        row := row[l.encoding[k] := pots[k]];
        k := k + 1;
      }
      r := r[s := row];
      j := j + 1;
    }
  }

  /**
   * `_build_mu_table` as evidently intended: a zero table with one row per
   * site and one column per code (`max + 1`), and for every active
   * sublattice the potential of each species written at each of its sites
   * under that species' code.
   */
  method BuildMuTable(numSites: nat, ls: seq<Sublattice>, mus: map<string, real>) returns (r: Result<seq<seq<real>>>)
    requires Partition(ls, numSites) && Covers(mus, ls)
    ensures MaxCode(ls).Err? ==> r == Err(MaxCode(ls).error)
    ensures MaxCode(ls).Ok? ==> Fits(ls, numSites, MaxCode(ls).value + 1)
    ensures MaxCode(ls).Ok? ==> r == Ok(TableWritten(numSites, MaxCode(ls).value + 1, ls, mus, |ls|))
  {
    var maxCode := MaxCode(ls);
    if maxCode.Err? {
      return Err(maxCode.error);
    }
    PartitionFits(ls, numSites);
    var table := FillTable(numSites, maxCode.value + 1, ls, mus);
    r := Ok(table);
  }

  /** The loop of `_build_mu_table` over the active sublattices, from a zero table. */
  method FillTable(rows: nat, cols: nat, ls: seq<Sublattice>, mus: map<string, real>) returns (table: seq<seq<real>>)
    requires Fits(ls, rows, cols) && Covers(mus, ls)
    ensures table == TableWritten(rows, cols, ls, mus, |ls|)
  {
    table := ZeroTable(rows, cols);
    var i := 0;
    while i < |ls|
      invariant 0 <= i <= |ls|
      invariant table == TableWritten(rows, cols, ls, mus, i)
    {
      if ls[i].active {
        TableRowsFit(rows, cols, ls, mus, i, i);
        table := FillSublattice(table, ls[i], OrderedPots(ls[i], mus));
      }
      i := i + 1;
    }
  }

  // ---------------------------------------------------------------------
  // The table as written
  // ---------------------------------------------------------------------

  /**
   * `table[sites, encoding] = pots` with two index arrays: numpy pairs
   * `sites[k]` with `encoding[k]` when the lengths agree, broadcasts a
   * single site over every code, and raises IndexError on any other shape
   * or on an index past the table.
   */
  function FancyAssign(t: seq<seq<real>>, sites: seq<nat>, enc: seq<nat>, pots: seq<real>): (r: Result<seq<seq<real>>>)
    requires |enc| == |pots|
    ensures r.Ok? ==> |r.value| == |t| && forall s :: 0 <= s < |t| ==> |r.value[s]| == |t[s]|
  {
    if |sites| == |enc| then PairAssign(t, sites, enc, pots, |sites|)
    else if |sites| == 1 then
      if sites[0] < |t| && forall k :: 0 <= k < |enc| ==> enc[k] < |t[sites[0]]| then
        Ok(t[sites[0] := RowWritten(t[sites[0]], enc, pots, |enc|)])
      else Err(IndexError("index is out of bounds"))
    else Err(IndexError("shape mismatch: indexing arrays could not be broadcast together"))
  }

  /** The paired writes `t[sites[k]][enc[k]] = pots[k]` for the first `n` pairs. */
  function PairAssign(t: seq<seq<real>>, sites: seq<nat>, enc: seq<nat>, pots: seq<real>, n: nat): (r: Result<seq<seq<real>>>)
    requires n <= |sites| == |enc| == |pots|
    ensures r.Ok? ==> |r.value| == |t| && forall s :: 0 <= s < |t| ==> |r.value[s]| == |t[s]|
    decreases n
  {
    if n == 0 then Ok(t)
    else
      var prev := PairAssign(t, sites, enc, pots, n - 1);
      if prev.Err? then prev
      else
        var s, c := sites[n - 1], enc[n - 1];
        if s < |prev.value| && c < |prev.value[s]| then Ok(prev.value[s := prev.value[s][c := pots[n - 1]]])
        else Err(IndexError("index is out of bounds"))
  }

  /** The write loop of `_build_mu_table` as written, over the first `n` sublattices. */
  function TableAsWritten(t: seq<seq<real>>, ls: seq<Sublattice>, mus: map<string, real>, n: nat): (r: Result<seq<seq<real>>>)
    requires n <= |ls| && Covers(mus, ls) && forall i :: 0 <= i < |ls| ==> |ls[i].encoding| == |ls[i].siteSpace|
    ensures r.Ok? ==> |r.value| == |t| && forall s :: 0 <= s < |t| ==> |r.value[s]| == |t[s]|
    decreases n
  {
    if n == 0 then Ok(t)
    else
      var prev := TableAsWritten(t, ls, mus, n - 1);
      var l := ls[n - 1];
      if prev.Err? || !l.active then prev
      else FancyAssign(prev.value, l.sites, l.encoding, OrderedPots(l, mus))
  }

  /**
   * `_build_mu_table` as written: `max(encoding)` columns, so the largest
   * code indexes past every row, then the fancy-indexed writes.
   */
  function BuildMuTableAsWritten(numSites: nat, ls: seq<Sublattice>, mus: map<string, real>): (r: Result<seq<seq<real>>>)
    requires Covers(mus, ls) && forall i :: 0 <= i < |ls| ==> |ls[i].encoding| == |ls[i].siteSpace|
    ensures r.Ok? ==> MaxCode(ls).Ok? && |r.value| == numSites
    ensures r.Ok? ==> forall s :: 0 <= s < numSites ==> |r.value[s]| == MaxCode(ls).value
  {
    var maxCode := MaxCode(ls);
    if maxCode.Err? then Err(maxCode.error)
    else TableAsWritten(ZeroTable(numSites, maxCode.value), ls, mus, |ls|)
  }

  /**
   * A single active sublattice of two sites and two species coded 0 and 1:
   * the table gets one column, and code 1 is past it.
   */
  lemma MuTableColumnsShort()
    ensures BuildMuTableAsWritten(2, [Sublattice(["A", "B"], [0, 1], [0, 1], true)], map["A" := 1.0, "B" := 2.0]).Err?
  {
    var ls := [Sublattice(["A", "B"], [0, 1], [0, 1], true)];
    var mus := map["A" := 1.0, "B" := 2.0];
    var maxCode := MaxCode(ls);
    assert maxCode == Ok(1);
    var t := ZeroTable(2, 1);
    var pots := OrderedPots(ls[0], mus);
    assert PairAssign(t, [0, 1], [0, 1], pots, 1) == Ok(t[0 := t[0][0 := 1.0]]);
    assert |t[1]| == 1;
  }

  /**
   * Even with columns to spare (a frozen sublattice with a larger code),
   * site 0 of the active sublattice only gets the potential of code 0 and
   * site 1 only that of code 1: the other species on each site read 0.
   */
  lemma MuTablePairsSites()
    ensures var ls := [Sublattice(["A", "B"], [0, 1], [0, 1], true), Sublattice(["C", "D", "E"], [2], [0, 1, 2], false)];
      var r := BuildMuTableAsWritten(3, ls, map["A" := 1.0, "B" := 2.0]);
      r.Ok? && r.value[0][1] == 0.0 && r.value[1][0] == 0.0
  {
    var ls := [Sublattice(["A", "B"], [0, 1], [0, 1], true), Sublattice(["C", "D", "E"], [2], [0, 1, 2], false)];
    PairsSitesCode(ls);
    PairsSitesWrites(ls, map["A" := 1.0, "B" := 2.0]);
  }

  /** The largest code of the example is that of the frozen sublattice. */
  lemma PairsSitesCode(ls: seq<Sublattice>)
    requires ls == [Sublattice(["A", "B"], [0, 1], [0, 1], true), Sublattice(["C", "D", "E"], [2], [0, 1, 2], false)]
    ensures MaxCode(ls) == Ok(2)
  {
    assert ls[..1] == [ls[0]];
    assert MaxCode(ls[..1]) == Ok(1);
  }

  /** The writes of the example: one potential per site of the active sublattice. */
  lemma PairsSitesWrites(ls: seq<Sublattice>, mus: map<string, real>)
    requires ls == [Sublattice(["A", "B"], [0, 1], [0, 1], true), Sublattice(["C", "D", "E"], [2], [0, 1, 2], false)]
    requires mus == map["A" := 1.0, "B" := 2.0]
    ensures Covers(mus, ls) && forall i :: 0 <= i < |ls| ==> |ls[i].encoding| == |ls[i].siteSpace|
    ensures var r := TableAsWritten(ZeroTable(3, 2), ls, mus, |ls|);
      r.Ok? && r.value[0][1] == 0.0 && r.value[1][0] == 0.0
  {
    assert Covers(mus, ls) by {
      forall i, sp | 0 <= i < |ls| && ls[i].active && sp in ls[i].siteSpace ensures sp in mus {
        assert i == 0;
      }
    }
    var t := ZeroTable(3, 2);
    var pots := OrderedPots(ls[0], mus);
    var t1 := t[0 := t[0][0 := pots[0]]];
    assert PairAssign(t, [0, 1], [0, 1], pots, 1) == Ok(t1);
    var t2 := t1[1 := t1[1][1 := pots[1]]];
    assert PairAssign(t, [0, 1], [0, 1], pots, 2) == Ok(t2);
    assert TableAsWritten(t, ls, mus, 1) == Ok(t2);
    assert t2[0][1] == 0.0 && t2[1][0] == 0.0;
  }

  // ---------------------------------------------------------------------
  // Chemical work
  // ---------------------------------------------------------------------

  /** Every site of the occupancy is a row and its code a column of the table. */
  predicate OccupancyFits(table: seq<seq<real>>, occ: seq<int>) {
    |occ| <= |table| && forall i :: 0 <= i < |occ| ==> 0 <= occ[i] < |table[i]|
  }

  /** Every flip names a site of the occupancy and a column of the table. */
  predicate StepFits(table: seq<seq<real>>, occ: seq<int>, step: seq<Flip>) {
    SitesIn(step, |occ|) && forall k :: 0 <= k < |step| ==> step[k].0 < |table| && 0 <= step[k].1 < |table[step[k].0]|
  }

  /** `compute_chemical_work`: the sum over sites of the table at the site's code. */
  function ChemicalWork(table: seq<seq<real>>, occ: seq<int>): (w: real)
    requires OccupancyFits(table, occ)
    decreases |occ|
  {
    if occ == [] then 0.0
    else
      var n := |occ| - 1;
      ChemicalWork(table, occ[..n]) + table[n][occ[n]]
  }

  /** Changing one site's code changes the work by the difference of the two table entries. */
  lemma {:induction false} ChemicalWorkUpdate(table: seq<seq<real>>, occ: seq<int>, s: nat, c: int)
    requires OccupancyFits(table, occ) && s < |occ| && 0 <= c < |table[s]|
    ensures OccupancyFits(table, occ[s := c])
    ensures ChemicalWork(table, occ[s := c]) == ChemicalWork(table, occ) - table[s][occ[s]] + table[s][c]
    decreases |occ|
  {
    var n := |occ| - 1;
    var occ2 := occ[s := c];
    assert occ2[..n] == if s < n then occ[..n][s := c] else occ[..n];
    if s < n {
      ChemicalWorkUpdate(table, occ[..n], s, c);
    }
  }

  /**
   * The chemical-work component of `compute_feature_vector_change`: each
   * flip's new entry minus the entry of the site's code BEFORE the step.
   */
  function ChemicalWorkChange(table: seq<seq<real>>, occ: seq<int>, step: seq<Flip>): (d: real)
    requires OccupancyFits(table, occ) && StepFits(table, occ, step)
    decreases |step|
  {
    if step == [] then 0.0
    else
      var f := step[|step| - 1];
      ChemicalWorkChange(table, occ, step[..|step| - 1]) + (table[f.0][f.1] - table[f.0][occ[f.0]])
  }

  /**
   * For a step that touches each site at most once, the change is the work
   * after the step minus the work before it.
   */
  lemma {:induction false} ChemicalWorkChangeExact(table: seq<seq<real>>, occ: seq<int>, step: seq<Flip>)
    requires OccupancyFits(table, occ) && StepFits(table, occ, step) && DistinctSites(step)
    ensures OccupancyFits(table, Apply(occ, step))
    ensures ChemicalWorkChange(table, occ, step) == ChemicalWork(table, Apply(occ, step)) - ChemicalWork(table, occ)
    decreases |step|
  {
    if step != [] {
      var n := |step| - 1;
      var init := step[..n];
      var f := step[n];
      assert forall k :: 0 <= k < n ==> init[k] == step[k];
      ChemicalWorkChangeExact(table, occ, init);
      var mid := Apply(occ, init);
      ApplyAt(occ, init, f.0);
      assert f.0 !in Sites(init) by {
        forall k | 0 <= k < n ensures Sites(init)[k] != f.0 {
          assert step[k].0 != step[n].0;
        }
      }
      ChemicalWorkUpdate(table, mid, f.0, f.1);
    }
  }

  /**
   * A step that flips the same site twice counts both flips against the
   * code before the step: the change is twice the single flip's.
   */
  lemma RepeatedSiteCountsTwice(table: seq<seq<real>>, occ: seq<int>, s: nat, c: int)
    requires OccupancyFits(table, occ) && s < |occ| && 0 <= c < |table[s]|
    ensures StepFits(table, occ, [(s, c), (s, c)])
    ensures ChemicalWorkChange(table, occ, [(s, c), (s, c)]) == 2.0 * (table[s][c] - table[s][occ[s]])
  {
    assert [(s, c), (s, c)][..1] == [(s, c)];
    assert [(s, c)][..0] == [];
    assert ChemicalWorkChange(table, occ, [(s, c)]) == table[s][c] - table[s][occ[s]];
  }

  // ---------------------------------------------------------------------
  // The ensemble
  // ---------------------------------------------------------------------

  /**
   * The potentials and their table agree with the sublattices: the keys
   * are the active species, the sublattices fit a table one column wider
   * than the largest code, and the table holds each active species'
   * potential at its code on its sites.
   */
  predicate PotentialsTable(ls: seq<Sublattice>, numSites: nat, mus: map<string, real>, table: seq<seq<real>>) {
    Partition(ls, numSites) && mus.Keys == ActiveSpecies(ls) && Covers(mus, ls)
    && MaxCode(ls).Ok? && Fits(ls, numSites, MaxCode(ls).value + 1)
    && table == TableWritten(numSites, MaxCode(ls).value + 1, ls, mus, |ls|)
  }

  /**
   * The checks of the `chemical_potentials` setter followed by the rebuild
   * of the table: either the setter's error, or the new potentials with a
   * table that agrees with them.
   */
  method NewPotentials(pots: Potentials, norm: string -> string, ls: seq<Sublattice>, numSites: nat)
    returns (r: Result<(map<string, real>, seq<seq<real>>)>)
    requires Partition(ls, numSites) && MaxCode(ls).Ok?
    ensures SetterPotentials(pots, norm, ls).Err? ==> r == Err(SetterPotentials(pots, norm, ls).error)
    ensures SetterPotentials(pots, norm, ls).Ok? ==> r.Ok? && r.value.0 == SetterPotentials(pots, norm, ls).value
    ensures r.Ok? ==> PotentialsTable(ls, numSites, r.value.0, r.value.1)
  {
    var value := SetterPotentials(pots, norm, ls);
    if value.Err? {
      return Err(value.error);
    }
    ActiveKeysCover(value.value, ls);
    var table := BuildMuTable(numSites, ls, value.value);
    r := Ok((value.value, table.value));
  }

  class SemiGrandEnsemble {
    const coefs: seq<real>
    const params: seq<real>
    const sublattices: seq<Sublattice>
    const numSites: nat
    /** The preallocated buffers every feature computation writes into and returns. */
    const features: array<real>
    const dfeatures: array<real>
    var mus: map<string, real>
    var muTable: seq<seq<real>>

    predicate Valid()
      reads this
    {
      features.Length == |coefs| + 1 && dfeatures.Length == |coefs| + 1 && features != dfeatures
      && params == NaturalParameters(coefs)
      && PotentialsTable(sublattices, numSites, mus, muTable)
    }

    /** The state after the constructor's checks have passed and the table has been built. */
    constructor (coefs: seq<real>, ls: seq<Sublattice>, numSites: nat, mus: map<string, real>, table: seq<seq<real>>)
      requires PotentialsTable(ls, numSites, mus, table)
      ensures Valid() && fresh(features) && fresh(dfeatures)
      ensures this.coefs == coefs && sublattices == ls && this.numSites == numSites
      ensures this.mus == mus && muTable == table
    {
      this.coefs := coefs;
      params := NaturalParameters(coefs);
      sublattices := ls;
      this.numSites := numSites;
      features := new real[|coefs| + 1];
      dfeatures := new real[|coefs| + 1];
      this.mus := mus;
      muTable := table;
    }

    /**
     * The chemical-potentials setter: on a failed check nothing changes;
     * otherwise the kept potentials and a table built from them replace
     * the old ones.
     */
    method SetChemicalPotentials(pots: Potentials, norm: string -> string) returns (out: Outcome)
      requires Valid()
      modifies this
      ensures Valid()
      ensures out == (if SetterPotentials(pots, norm, sublattices).Err? then Fail(SetterPotentials(pots, norm, sublattices).error) else Pass)
      ensures out.Fail? ==> mus == old(mus) && muTable == old(muTable)
      ensures out.Pass? ==> mus == SetterPotentials(pots, norm, sublattices).value
    {
      var r := NewPotentials(pots, norm, sublattices, numSites);
      if r.Err? {
        return Fail(r.error);
      }
      mus, muTable := r.value.0, r.value.1;
      out := Pass;
    }

    /**
     * `compute_feature_vector`: the processor's features, then the chemical
     * work, written into the shared buffer, which is what is returned.
     */
    method ComputeFeatureVector(occ: seq<int>, processorFeatures: seq<real>) returns (r: array<real>)
      requires Valid() && OccupancyFits(muTable, occ) && |processorFeatures| == |coefs|
      modifies features
      ensures r == features
      ensures r[..] == processorFeatures + [ChemicalWork(muTable, occ)]
    {
      var k := 0;
      while k < |processorFeatures|
        invariant 0 <= k <= |processorFeatures|
        invariant features[..k] == processorFeatures[..k]
      {
        features[k] := processorFeatures[k];
        k := k + 1;
      }
      features[|coefs|] := ChemicalWork(muTable, occ);
      assert features[..] == features[..|coefs|] + [features[|coefs|]];
      r := features;
    }

    /**
     * `compute_feature_vector_change`: the processor's change, then the
     * chemical-work change, written into the shared change buffer.
     */
    method ComputeFeatureVectorChange(occ: seq<int>, step: seq<Flip>, processorChange: seq<real>) returns (r: array<real>)
      requires Valid() && OccupancyFits(muTable, occ) && StepFits(muTable, occ, step) && |processorChange| == |coefs|
      modifies dfeatures
      ensures r == dfeatures
      ensures r[..] == processorChange + [ChemicalWorkChange(muTable, occ, step)]
    {
      var k := 0;
      while k < |processorChange|
        invariant 0 <= k <= |processorChange|
        invariant dfeatures[..k] == processorChange[..k]
      {
        dfeatures[k] := processorChange[k];
        k := k + 1;
      }
      dfeatures[|coefs|] := ChemicalWorkChange(muTable, occ, step);
      assert dfeatures[..] == dfeatures[..|coefs|] + [dfeatures[|coefs|]];
      r := dfeatures;
    }
  }

  /**
   * The constructor: the potentials are checked and filtered, then the
   * table is built (where an empty sublattice list raises ValueError).
   */
  method CreateSemiGrand(coefs: seq<real>, ls: seq<Sublattice>, numSites: nat, pots: Potentials, norm: string -> string)
    returns (r: Result<SemiGrandEnsemble>)
    requires Partition(ls, numSites)
    ensures r.Ok? <==> ConstructorPotentials(pots, norm, ls).Ok? && MaxCode(ls).Ok?
    ensures ConstructorPotentials(pots, norm, ls).Err? ==> r == Err(ConstructorPotentials(pots, norm, ls).error)
    ensures ConstructorPotentials(pots, norm, ls).Ok? && MaxCode(ls).Err? ==> r == Err(MaxCode(ls).error)
    ensures r.Ok? ==> r.value.coefs == coefs && r.value.sublattices == ls && r.value.numSites == numSites
    ensures r.Ok? ==> (fresh(r.value) && r.value.Valid() && r.value.mus == ConstructorPotentials(pots, norm, ls).value
                       && r.value.params == NaturalParameters(coefs))
  {
    var mus := ConstructorPotentials(pots, norm, ls);
    if mus.Err? {
      return Err(mus.error);
    }
    var table := BuildMuTable(numSites, ls, mus.value);
    if table.Err? {
      return Err(table.error);
    }
    assert PotentialsTable(ls, numSites, mus.value, table.value);
    var e := new SemiGrandEnsemble(coefs, ls, numSites, mus.value, table.value);
    r := Ok(e);
  }

  /**
   * Two feature computations return the same buffer: the first result now
   * holds the second occupancy's features.
   */
  method FeatureVectorsAlias(e: SemiGrandEnsemble, occ1: seq<int>, f1: seq<real>, occ2: seq<int>, f2: seq<real>)
    returns (r1: array<real>, r2: array<real>)
    requires e.Valid() && OccupancyFits(e.muTable, occ1) && OccupancyFits(e.muTable, occ2)
    requires |f1| == |e.coefs| && |f2| == |e.coefs|
    modifies e.features
    ensures r1 == r2 && r1[..] == f2 + [ChemicalWork(e.muTable, occ2)]
  {
    r1 := e.ComputeFeatureVector(occ1, f1);
    r2 := e.ComputeFeatureVector(occ2, f2);
  }
}
