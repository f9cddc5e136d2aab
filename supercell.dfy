/**
 * ClusterSupercell: the index tables that place every orbit's clusters on
 * the sites of one supercell, the per-site view of those tables used for
 * local updates, the correlation vector of an occupancy, the species/code
 * encoding of occupancies and the correlation change of a list of flips.
 *
 * Geometry (lattice points, coordinate matching) is outside the model: each
 * orbit arrives with its table `inds` already computed, one row of supercell
 * site indices per image of a cluster of the orbit.
 */
module Supercell {
  import opened Errors
  import opened Flips

  /** The supercell site indices of one cluster image. */
  type Row = seq<nat>

  /** A bit ordering set: the bit orderings that share one correlation function. */
  type BitCombo = seq<seq<int>>

  /** An orbit together with its supercell index table. */
  datatype OrbitTable = OrbitTable(bitCombos: seq<BitCombo>, bitId: nat, inds: seq<Row>)

  /**
   * One entry of the per-site index: the orbit's bit combos and first
   * correlation index, the rows that contain the site, and the ratio of all
   * rows to those rows.
   */
  datatype SiteEntry = SiteEntry(bitCombos: seq<BitCombo>, bitId: nat, rows: seq<Row>, ratio: real)

  /** A built supercell: its site spaces, its tables and its per-site index. */
  datatype ClusterSupercell<S> = ClusterSupercell(
    bits: seq<seq<S>>,
    nBitOrderings: nat,
    tables: seq<OrbitTable>,
    bySite: map<nat, seq<SiteEntry>>)

  // ---------------------------------------------------------------------
  // Per-site index (_generate_mappings)
  // ---------------------------------------------------------------------

  /** The distinct sites appearing in a table. */
  function SitesOf(inds: seq<Row>): set<nat> {
    set r, s | r in inds && s in r :: s
  }

  function AllSites(tables: seq<OrbitTable>): set<nat>
    decreases |tables|
  {
    if tables == [] then {}
    else AllSites(tables[..|tables| - 1]) + SitesOf(tables[|tables| - 1].inds)
  }

  /**
   * The rows of a table that contain site `s`, in table order; a row the
   * table repeats is kept as often as it appears.
   */
  function RowsWith(inds: seq<Row>, s: nat): (r: seq<Row>)
    ensures |r| <= |inds|
    ensures forall row :: row in r <==> row in inds && s in row
    ensures forall row :: multiset(r)[row] == if s in row then multiset(inds)[row] else 0
    decreases |inds|
  {
    if inds == [] then []
    else
      var n := |inds| - 1;
      assert inds == inds[..n] + [inds[n]];
      RowsWith(inds[..n], s) + (if s in inds[n] then [inds[n]] else [])
  }

  lemma RowsWithNonEmpty(inds: seq<Row>, s: nat)
    requires s in SitesOf(inds)
    ensures |RowsWith(inds, s)| > 0
  {
    var r :| r in inds && s in r;
    assert r in RowsWith(inds, s);
  }

  /** The entry one orbit contributes to the index of a site it touches. */
  function Entry(t: OrbitTable, s: nat): (e: SiteEntry)
    requires s in SitesOf(t.inds)
  {
    RowsWithNonEmpty(t.inds, s);
    var rows := RowsWith(t.inds, s);
    SiteEntry(t.bitCombos, t.bitId, rows, |t.inds| as real / |rows| as real)
  }

  /** The specification of the per-site index: one entry per orbit touching `s`, in orbit order. */
  function EntriesFor(tables: seq<OrbitTable>, s: nat): seq<SiteEntry>
    decreases |tables|
  {
    if tables == [] then []
    else
      var t := tables[|tables| - 1];
      EntriesFor(tables[..|tables| - 1], s) + (if s in SitesOf(t.inds) then [Entry(t, s)] else [])
  }

  /** A lookup with the default of an empty list, as the source's defaultdict gives. */
  function EntriesAt(bySite: map<nat, seq<SiteEntry>>, s: nat): seq<SiteEntry> {
    if s in bySite then bySite[s] else []
  }

  lemma {:induction false} EntriesForUntouched(tables: seq<OrbitTable>, s: nat)
    requires s !in AllSites(tables)
    ensures EntriesFor(tables, s) == []
    decreases |tables|
  {
    if tables != [] { EntriesForUntouched(tables[..|tables| - 1], s); }
  }

  /**
   * Building the per-site index: for every orbit in order and every site its
   * table touches, append that orbit's entry to the site's list.
   */
  method GenerateSiteMappings(tables: seq<OrbitTable>) returns (bySite: map<nat, seq<SiteEntry>>)
    ensures forall s :: s in bySite <==> s in AllSites(tables)
    ensures forall s :: EntriesAt(bySite, s) == EntriesFor(tables, s)
  {
    bySite := map[];
    var k := 0;
    while k < |tables|
      invariant 0 <= k <= |tables|
      invariant forall s :: s in bySite <==> s in AllSites(tables[..k])
      invariant forall s :: s in bySite ==> bySite[s] == EntriesFor(tables[..k], s)
    {
      var t := tables[k];
      assert tables[..k + 1][..k] == tables[..k];
      var todo := SitesOf(t.inds);
      ghost var done: set<nat> := {};
      while todo != {}
        invariant todo + done == SitesOf(t.inds) && todo !! done
        invariant forall s :: s in bySite <==> s in AllSites(tables[..k]) || s in done
        invariant forall s :: s in bySite ==>
          bySite[s] == if s in done then EntriesFor(tables[..k + 1], s) else EntriesFor(tables[..k], s)
        decreases todo
      {
        var s :| s in todo;
        if s !in bySite { EntriesForUntouched(tables[..k], s); }
        var prior := if s in bySite then bySite[s] else [];
        bySite := bySite[s := prior + [Entry(t, s)]];
        todo := todo - {s};
        done := done + {s};
      }
      k := k + 1;
    }
    assert tables[..k] == tables;
    forall s ensures EntriesAt(bySite, s) == EntriesFor(tables, s) {
      if s !in bySite { EntriesForUntouched(tables, s); }
    }
  }

  /** The positions of the orbits whose table touches `s`, ascending. */
  function Touching(tables: seq<OrbitTable>, s: nat): (r: seq<nat>)
    ensures forall j :: 0 <= j < |r| ==> r[j] < |tables| && s in SitesOf(tables[r[j]].inds)
    decreases |tables|
  {
    if tables == [] then []
    else
      var n := |tables| - 1;
      Touching(tables[..n], s) + (if s in SitesOf(tables[n].inds) then [n] else [])
  }

  /** `Touching` lists every orbit whose table touches the site, once and in ascending order. */
  lemma {:induction false} TouchingMeaning(tables: seq<OrbitTable>, s: nat)
    ensures var t := Touching(tables, s);
      (forall j, k :: 0 <= j < k < |t| ==> t[j] < t[k])
      && (forall k :: 0 <= k < |tables| ==> (k in t <==> s in SitesOf(tables[k].inds)))
    decreases |tables|
  {
    if tables != [] {
      var n := |tables| - 1;
      TouchingMeaning(tables[..n], s);
    }
  }

  /** The per-site index of `s` holds, in orbit order, the entry of each orbit touching `s`. */
  lemma {:induction false} EntriesForTouching(tables: seq<OrbitTable>, s: nat)
    ensures var e := EntriesFor(tables, s); var t := Touching(tables, s);
      |e| == |t| && forall j :: 0 <= j < |t| ==> e[j] == Entry(tables[t[j]], s)
    decreases |tables|
  {
    if tables != [] {
      var n := |tables| - 1;
      var init := tables[..n];
      EntriesForTouching(init, s);
      var t0 := Touching(init, s);
      forall j | 0 <= j < |t0| ensures init[t0[j]] == tables[t0[j]] { }
    }
  }

  /** What one entry says about its orbit. */
  ghost predicate EntryDescribes(e: SiteEntry, t: OrbitTable, s: nat) {
    e.bitCombos == t.bitCombos
    && e.bitId == t.bitId
    && (forall row :: row in e.rows <==> row in t.inds && s in row)
    && (forall row :: multiset(e.rows)[row] == if s in row then multiset(t.inds)[row] else 0)
    && |e.rows| > 0
    && e.ratio == |t.inds| as real / |e.rows| as real
    && e.ratio >= 1.0
  }

  /**
   * An entry keeps the orbit's combos and first correlation index, exactly
   * the rows containing the site (at least one, each as often as the table
   * holds it), and the ratio of all rows
   * to those rows, which is at least one.
   */
  lemma EntryMeaning(t: OrbitTable, s: nat)
    requires s in SitesOf(t.inds)
    ensures EntryDescribes(Entry(t, s), t, s)
  {
    RowsWithNonEmpty(t.inds, s);
    var rows := RowsWith(t.inds, s);
    RatioAtLeastOne(|t.inds|, |rows|);
  }

  lemma RatioAtLeastOne(a: nat, b: nat)
    requires 0 < b <= a
    ensures a as real / b as real >= 1.0
  {
  }

  // ---------------------------------------------------------------------
  // Correlation vector (corr_from_occupancy)
  // ---------------------------------------------------------------------

  predicate RowIn(row: Row, n: nat) { forall j :: 0 <= j < |row| ==> row[j] < n }

  /** What `corr_from_occupancy` needs to run without an index error or an empty mean. */
  predicate TablesFit(tables: seq<OrbitTable>, nSites: nat, n: nat) {
    n > 0
    && forall k :: 0 <= k < |tables| ==>
         tables[k].bitId + |tables[k].bitCombos| <= n
         && |tables[k].inds| > 0
         && (forall r :: r in tables[k].inds ==> RowIn(r, nSites))
         && (forall b :: b in tables[k].bitCombos ==> |b| > 0)
  }

  /** The occupancy of one cluster image. */
  function RowOccupancy<T>(occ: seq<T>, row: Row): (r: seq<T>)
    requires RowIn(row, |occ|)
    ensures |r| == |row| && forall j :: 0 <= j < |row| ==> r[j] == occ[row[j]]
  {
    seq(|row|, j requires 0 <= j < |row| => occ[row[j]])
  }

  /** The sum of a cluster function over every image. */
  function RowsSum<T>(eval: (seq<int>, seq<T>) -> real, bits: seq<int>, occ: seq<T>, rows: seq<Row>): real
    requires forall r :: r in rows ==> RowIn(r, |occ|)
    decreases |rows|
  {
    if rows == [] then 0.0
    else RowsSum(eval, bits, occ, rows[..|rows| - 1]) + eval(bits, RowOccupancy(occ, rows[|rows| - 1]))
  }

  /** The sum over every bit ordering of a combo and every image. */
  function ComboSum<T>(eval: (seq<int>, seq<T>) -> real, combo: BitCombo, occ: seq<T>, rows: seq<Row>): real
    requires forall r :: r in rows ==> RowIn(r, |occ|)
    decreases |combo|
  {
    if combo == [] then 0.0
    else ComboSum(eval, combo[..|combo| - 1], occ, rows) + RowsSum(eval, combo[|combo| - 1], occ, rows)
  }

  /** The mean of the cluster function over all orderings of a combo and all images. */
  function ComboMean<T>(eval: (seq<int>, seq<T>) -> real, combo: BitCombo, occ: seq<T>, rows: seq<Row>): real
    requires forall r :: r in rows ==> RowIn(r, |occ|)
    requires |combo| > 0 && |rows| > 0
  {
    ComboSum(eval, combo, occ, rows) / ((|combo| * |rows|) as real)
  }

  /** The vector `[1, 0, ..., 0]` of length `n` the source starts from. */
  function InitialCorr(n: nat): (r: seq<real>)
    requires n > 0
    ensures |r| == n && r[0] == 1.0 && forall j :: 0 < j < n ==> r[j] == 0.0
  {
    [1.0] + seq(n - 1, _ => 0.0)
  }

  /** The vector after writing the means of the first `m` combos of table `t`. */
  function WriteCombos<T>(c: seq<real>, t: OrbitTable, occ: seq<T>, eval: (seq<int>, seq<T>) -> real, m: nat): (r: seq<real>)
    requires m <= |t.bitCombos| && t.bitId + |t.bitCombos| <= |c| && |t.inds| > 0
    requires forall r :: r in t.inds ==> RowIn(r, |occ|)
    requires forall b :: b in t.bitCombos ==> |b| > 0
    ensures |r| == |c|
  {
    if m == 0 then c
    else WriteCombos(c, t, occ, eval, m - 1)[t.bitId + m - 1 := ComboMean(eval, t.bitCombos[m - 1], occ, t.inds)]
  }

  /** The vector after processing the tables in order. */
  function WriteOrbits<T>(c: seq<real>, tables: seq<OrbitTable>, occ: seq<T>, eval: (seq<int>, seq<T>) -> real): (r: seq<real>)
    requires TablesFit(tables, |occ|, |c|)
    ensures |r| == |c|
    decreases |tables|
  {
    if tables == [] then c
    else
      var t := tables[|tables| - 1];
      WriteCombos(WriteOrbits(c, tables[..|tables| - 1], occ, eval), t, occ, eval, |t.bitCombos|)
  }

  function CorrSpec<T>(tables: seq<OrbitTable>, n: nat, occ: seq<T>, eval: (seq<int>, seq<T>) -> real): seq<real>
    requires TablesFit(tables, |occ|, n)
  {
    WriteOrbits(InitialCorr(n), tables, occ, eval)
  }

  /**
   * The correlation vector of an occupancy: entry 0 is one, and for every
   * orbit and every combo `i` of it, entry `bitId + i` is the mean of the
   * cluster function over all orderings of that combo and all images.
   */
  method CorrFromOccupancy<T>(tables: seq<OrbitTable>, n: nat, occ: seq<T>, eval: (seq<int>, seq<T>) -> real)
    returns (corr: seq<real>)
    requires TablesFit(tables, |occ|, n)
    ensures corr == CorrSpec(tables, n, occ, eval)
  {
    var a := new real[n](_ => 0.0);
    a[0] := 1.0;
    var k := 0;
    while k < |tables|
      invariant 0 <= k <= |tables|
      invariant a[..] == WriteOrbits(InitialCorr(n), tables[..k], occ, eval)
    {
      var t := tables[k];
      assert tables[..k + 1][..k] == tables[..k];
      ghost var before := a[..];
      var i := 0;
      while i < |t.bitCombos|
        invariant 0 <= i <= |t.bitCombos|
        invariant a[..] == WriteCombos(before, t, occ, eval, i)
      {
        a[t.bitId + i] := ComboMean(eval, t.bitCombos[i], occ, t.inds);
        i := i + 1;
      }
      k := k + 1;
    }
    assert tables[..k] == tables;
    corr := a[..];
  }

  lemma {:induction false} WriteCombosAt<T>(c: seq<real>, t: OrbitTable, occ: seq<T>, eval: (seq<int>, seq<T>) -> real, m: nat, j: nat)
    requires m <= |t.bitCombos| && t.bitId + |t.bitCombos| <= |c| && |t.inds| > 0
    requires forall r :: r in t.inds ==> RowIn(r, |occ|)
    requires forall b :: b in t.bitCombos ==> |b| > 0
    requires j < |c|
    ensures WriteCombos(c, t, occ, eval, m)[j]
      == if t.bitId <= j < t.bitId + m then ComboMean(eval, t.bitCombos[j - t.bitId], occ, t.inds) else c[j]
  {
    if m > 0 { WriteCombosAt(c, t, occ, eval, m - 1, j); }
  }

  /** No two orbits share a correlation index, and none uses index 0. */
  predicate RangesDisjoint(tables: seq<OrbitTable>) {
    (forall k :: 0 <= k < |tables| ==> tables[k].bitId >= 1)
    && forall a, b :: 0 <= a < b < |tables| ==>
         tables[a].bitId + |tables[a].bitCombos| <= tables[b].bitId
         || tables[b].bitId + |tables[b].bitCombos| <= tables[a].bitId
  }

  predicate Covered(tables: seq<OrbitTable>, j: nat) {
    exists k :: 0 <= k < |tables| && tables[k].bitId <= j < tables[k].bitId + |tables[k].bitCombos|
  }

  lemma PrefixFits(tables: seq<OrbitTable>, nSites: nat, n: nat, m: nat)
    requires TablesFit(tables, nSites, n) && RangesDisjoint(tables) && m <= |tables|
    ensures TablesFit(tables[..m], nSites, n) && RangesDisjoint(tables[..m])
  {
    assert forall q :: 0 <= q < m ==> tables[..m][q] == tables[q];
  }

  lemma {:induction false} WriteOrbitsCovered<T>(c: seq<real>, tables: seq<OrbitTable>, occ: seq<T>,
                                                 eval: (seq<int>, seq<T>) -> real, k: nat, i: nat)
    requires TablesFit(tables, |occ|, |c|) && RangesDisjoint(tables)
    requires k < |tables| && i < |tables[k].bitCombos|
    ensures WriteOrbits(c, tables, occ, eval)[tables[k].bitId + i]
      == ComboMean(eval, tables[k].bitCombos[i], occ, tables[k].inds)
    decreases |tables|
  {
    var n := |tables| - 1;
    var init := tables[..n];
    var t := tables[n];
    var j := tables[k].bitId + i;
    PrefixFits(tables, |occ|, |c|, n);
    var prev := WriteOrbits(c, init, occ, eval);
    WriteCombosAt(prev, t, occ, eval, |t.bitCombos|, j);
    if k < n {
      assert !(t.bitId <= j < t.bitId + |t.bitCombos|);
      assert init[k] == tables[k];
      WriteOrbitsCovered(c, init, occ, eval, k, i);
    }
  }

  lemma {:induction false} WriteOrbitsUncovered<T>(c: seq<real>, tables: seq<OrbitTable>, occ: seq<T>,
                                                   eval: (seq<int>, seq<T>) -> real, j: nat)
    requires TablesFit(tables, |occ|, |c|)
    requires j < |c| && !Covered(tables, j)
    ensures WriteOrbits(c, tables, occ, eval)[j] == c[j]
    decreases |tables|
  {
    if tables != [] {
      var n := |tables| - 1;
      var init := tables[..n];
      var prev := WriteOrbits(c, init, occ, eval);
      WriteCombosAt(prev, tables[n], occ, eval, |tables[n].bitCombos|, j);
      assert !(tables[n].bitId <= j < tables[n].bitId + |tables[n].bitCombos|);
      forall k | 0 <= k < |init|
        ensures !(init[k].bitId <= j < init[k].bitId + |init[k].bitCombos|)
      {
        assert init[k] == tables[k];
      }
      WriteOrbitsUncovered(c, init, occ, eval, j);
    }
  }

  /**
   * What the correlation vector means when the orbits' correlation indices
   * do not overlap: entry 0 is one, every orbit's entries are its combo means,
   * and every other entry is zero.
   */
  lemma CorrSpecMeaning<T>(tables: seq<OrbitTable>, n: nat, occ: seq<T>, eval: (seq<int>, seq<T>) -> real)
    requires TablesFit(tables, |occ|, n) && RangesDisjoint(tables)
    ensures |CorrSpec(tables, n, occ, eval)| == n
    ensures CorrSpec(tables, n, occ, eval)[0] == 1.0
    ensures forall k, i :: 0 <= k < |tables| && 0 <= i < |tables[k].bitCombos| ==>
      CorrSpec(tables, n, occ, eval)[tables[k].bitId + i] == ComboMean(eval, tables[k].bitCombos[i], occ, tables[k].inds)
    ensures forall j :: 0 < j < n && !Covered(tables, j) ==> CorrSpec(tables, n, occ, eval)[j] == 0.0
  {
    var c := InitialCorr(n);
    forall k, i | 0 <= k < |tables| && 0 <= i < |tables[k].bitCombos|
      ensures CorrSpec(tables, n, occ, eval)[tables[k].bitId + i] == ComboMean(eval, tables[k].bitCombos[i], occ, tables[k].inds)
    {
      WriteOrbitsCovered(c, tables, occ, eval, k, i);
    }
    forall j | 0 <= j < n && !Covered(tables, j)
      ensures CorrSpec(tables, n, occ, eval)[j] == c[j]
    {
      WriteOrbitsUncovered(c, tables, occ, eval, j);
    }
    assert !Covered(tables, 0);
  }

  // ---------------------------------------------------------------------
  // Occupancy encoding (encode_occu / decode_occu)
  // ---------------------------------------------------------------------

  function Min(a: nat, b: nat): nat { if a <= b then a else b }

  /** The first position of `x` in `xs` (Python's `list.index`). */
  function IndexOf<S(==)>(xs: seq<S>, x: S): (i: nat)
    requires x in xs
    ensures i < |xs| && xs[i] == x && forall j :: 0 <= j < i ==> xs[j] != x
  {
    if xs[0] == x then 0 else 1 + IndexOf(xs[1..], x)
  }

  /**
   * Species to codes, pairing sites with site spaces as `zip` does (up to
   * the shorter of the two); a species missing from its site space raises.
   */
  function EncodeOccu<S(==)>(bits: seq<seq<S>>, occu: seq<S>): (r: Result<seq<int>>)
    ensures r.Ok? <==> forall i :: 0 <= i < Min(|bits|, |occu|) ==> occu[i] in bits[i]
    ensures r.Err? ==> r.error.ValueError?
    ensures r.Ok? ==> (|r.value| == Min(|bits|, |occu|)
      && forall i :: 0 <= i < |r.value| ==>
           0 <= r.value[i] < |bits[i]| && bits[i][r.value[i]] == occu[i]
           && forall j :: 0 <= j < r.value[i] ==> bits[i][j] != occu[i])
  {
    var m := Min(|bits|, |occu|);
    if forall i :: 0 <= i < m ==> occu[i] in bits[i] then
      Ok(seq(m, i requires 0 <= i < m => IndexOf(bits[i], occu[i]) as int))
    else Err(ValueError("species is not in the site space"))
  }

  /** Python list indexing: a negative index counts from the end. */
  predicate PyIndexOk(n: nat, i: int) { -(n as int) <= i < n }

  function PyAt<S>(xs: seq<S>, i: int): S
    requires PyIndexOk(|xs|, i)
  {
    if i >= 0 then xs[i] else xs[|xs| + i]
  }

  /** Codes to species, pairing as `zip` does; a code outside its site space raises. */
  function DecodeOccu<S>(bits: seq<seq<S>>, enc: seq<int>): (r: Result<seq<S>>)
    ensures r.Ok? <==> forall i :: 0 <= i < Min(|bits|, |enc|) ==> PyIndexOk(|bits[i]|, enc[i])
    ensures r.Err? ==> r.error.IndexError?
    ensures r.Ok? ==> (|r.value| == Min(|bits|, |enc|)
      && forall i :: 0 <= i < |r.value| ==> r.value[i] == PyAt(bits[i], enc[i]))
  {
    var m := Min(|bits|, |enc|);
    if forall i :: 0 <= i < m ==> PyIndexOk(|bits[i]|, enc[i]) then
      Ok(seq(m, i requires 0 <= i < m => PyAt(bits[i], enc[i])))
    else Err(IndexError("code outside the site space"))
  }

  /** Decoding undoes encoding for an occupancy whose species all lie in their site spaces. */
  lemma DecodeEncode<S>(bits: seq<seq<S>>, occu: seq<S>)
    requires |occu| == |bits|
    requires forall i :: 0 <= i < |occu| ==> occu[i] in bits[i]
    ensures EncodeOccu(bits, occu).Ok?
    ensures DecodeOccu(bits, EncodeOccu(bits, occu).value) == Ok(occu)
  {
    var enc := EncodeOccu(bits, occu).value;
    var back := DecodeOccu(bits, enc);
    assert back.Ok?;
    assert |back.value| == |occu|;
    forall i | 0 <= i < |occu| ensures back.value[i] == occu[i] {
      assert 0 <= enc[i] < |bits[i]| && bits[i][enc[i]] == occu[i];
      assert back.value[i] == PyAt(bits[i], enc[i]);
    }
    assert back.value == occu;
  }

  /** Encoding undoes decoding for in-range codes when no site space repeats a species. */
  lemma EncodeDecode<S>(bits: seq<seq<S>>, enc: seq<int>)
    requires |enc| == |bits|
    requires forall i :: 0 <= i < |enc| ==> 0 <= enc[i] < |bits[i]|
    requires forall i, j, k :: 0 <= i < |bits| && 0 <= j < k < |bits[i]| ==> bits[i][j] != bits[i][k]
    ensures DecodeOccu(bits, enc).Ok?
    ensures EncodeOccu(bits, DecodeOccu(bits, enc).value) == Ok(enc)
  {
    var occu := DecodeOccu(bits, enc).value;
    var r := EncodeOccu(bits, occu);
    assert r.Ok?;
    forall i | 0 <= i < |enc| ensures r.value[i] == enc[i] {
      assert occu[i] == bits[i][enc[i]];
      assert bits[i][r.value[i]] == bits[i][enc[i]];
    }
    assert r.value == enc;
  }

  // ---------------------------------------------------------------------
  // Correlation change of a list of flips (delta_corr)
  // ---------------------------------------------------------------------

  function Zeros(n: nat): (r: seq<real>)
    ensures |r| == n && forall j :: 0 <= j < n ==> r[j] == 0.0
  {
    seq(n, _ => 0.0)
  }

  function VecAdd(a: seq<real>, b: seq<real>): (r: seq<real>)
    requires |a| == |b|
    ensures |r| == |a| && forall j :: 0 <= j < |a| ==> r[j] == a[j] + b[j]
  {
    seq(|a|, j requires 0 <= j < |a| => a[j] + b[j])
  }

  function VecSub(a: seq<real>, b: seq<real>): (r: seq<real>)
    requires |a| == |b|
    ensures |r| == |a| && forall j :: 0 <= j < |a| ==> r[j] == a[j] - b[j]
  {
    seq(|a|, j requires 0 <= j < |a| => a[j] - b[j])
  }

  /**
   * The single-flip update of the compiled extension: given the occupancy
   * after and before one flip, the entries of the flipped site, the site and
   * the new code, it returns the change of the (correlation + Ewald) vector.
   */
  type SingleFlip = (seq<int>, seq<int>, seq<SiteEntry>, nat, int) -> seq<real>

  /** The single-flip update always returns a vector of length `len`. */
  ghost predicate ReturnsLength(single: SingleFlip, len: nat) {
    forall a, b, e, s, c :: |single(a, b, e, s, c)| == len
  }

  lemma SingleLength(single: SingleFlip, len: nat, a: seq<int>, b: seq<int>, e: seq<SiteEntry>, s: nat, c: int)
    requires ReturnsLength(single, len)
    ensures |single(a, b, e, s, c)| == len
  {
  }

  /** The accumulated change: the single-flip changes of the flips applied one after the other. */
  function DeltaSum(single: SingleFlip, bySite: map<nat, seq<SiteEntry>>, len: nat, occ: seq<int>, flips: seq<Flip>): (r: seq<real>)
    requires SitesIn(flips, |occ|)
    requires ReturnsLength(single, len)
    ensures |r| == len
    decreases |flips|
  {
    if flips == [] then Zeros(len)
    else
      var init := flips[..|flips| - 1];
      var f := flips[|flips| - 1];
      SingleLength(single, len, Apply(occ, flips), Apply(occ, init), EntriesAt(bySite, f.0), f.0, f.1);
      VecAdd(DeltaSum(single, bySite, len, occ, init),
             single(Apply(occ, flips), Apply(occ, init), EntriesAt(bySite, f.0), f.0, f.1))
  }

  /**
   * The change of the correlation vector from applying `flips` in order to
   * `occu`, together with the encoded occupancy reached: encoding errors
   * and out-of-range sites raise.
   */
  method DeltaCorr<S(==)>(sc: ClusterSupercell<S>, flips: seq<Flip>, occu: seq<S>, numEwald: nat, single: SingleFlip)
    returns (r: Result<(seq<real>, seq<int>)>)
    requires ReturnsLength(single, sc.nBitOrderings + numEwald)
    ensures EncodeOccu(sc.bits, occu).Err? ==> r == Err(EncodeOccu(sc.bits, occu).error)
    ensures EncodeOccu(sc.bits, occu).Ok? ==>
      var enc := EncodeOccu(sc.bits, occu).value;
      (r.Ok? <==> SitesIn(flips, |enc|))
      && (r.Err? ==> r.error.IndexError?)
      && (r.Ok? ==> r.value.1 == Apply(enc, flips)
                    && r.value.0 == DeltaSum(single, sc.bySite, sc.nBitOrderings + numEwald, enc, flips))
  {
    var encoded := EncodeOccu(sc.bits, occu);
    if encoded.Err? {
      return Err(encoded.error);
    }
    var newOccu := encoded.value;
    ghost var enc := newOccu;
    var len := sc.nBitOrderings + numEwald;
    var delta := Zeros(len);
    var k := 0;
    while k < |flips|
      invariant 0 <= k <= |flips|
      invariant SitesIn(flips[..k], |enc|)
      invariant newOccu == Apply(enc, flips[..k])
      invariant delta == DeltaSum(single, sc.bySite, len, enc, flips[..k])
    {
      var f := flips[k];
      if f.0 >= |newOccu| {
        return Err(IndexError("flip site outside the occupancy"));
      }
      assert flips[..k + 1][..k] == flips[..k];
      var flipped := newOccu[f.0 := f.1];
      SingleLength(single, len, flipped, newOccu, EntriesAt(sc.bySite, f.0), f.0, f.1);
      delta := VecAdd(delta, single(flipped, newOccu, EntriesAt(sc.bySite, f.0), f.0, f.1));
      newOccu := flipped;
      k := k + 1;
    }
    assert flips[..k] == flips;
    r := Ok((delta, newOccu));
  }

  /** The single-flip update is exact for a correlation function `corr`. */
  ghost predicate ExactSingleFlip(single: SingleFlip, bySite: map<nat, seq<SiteEntry>>, len: nat, corr: seq<int> -> seq<real>) {
    (forall a :: |corr(a)| == len)
    && forall a: seq<int>, s: nat, c: int {:trigger single(a[s := c], a, EntriesAt(bySite, s), s, c)} ::
      s < |a| ==> single(a[s := c], a, EntriesAt(bySite, s), s, c) == VecSub(corr(a[s := c]), corr(a))
  }

  lemma UseExact(single: SingleFlip, bySite: map<nat, seq<SiteEntry>>, len: nat, corr: seq<int> -> seq<real>,
                 a: seq<int>, s: nat, c: int)
    requires ExactSingleFlip(single, bySite, len, corr) && s < |a|
    ensures |corr(a)| == len && |corr(a[s := c])| == len
    ensures single(a[s := c], a, EntriesAt(bySite, s), s, c) == VecSub(corr(a[s := c]), corr(a))
  {
  }

  /**
   * If every single-flip change is exact, the accumulated change telescopes
   * to the correlation of the final occupancy minus that of the initial
   * one — the consistency the source's debug mode asserts.
   */
  lemma {:induction false} DeltaTelescopes(single: SingleFlip, bySite: map<nat, seq<SiteEntry>>, len: nat,
                                           corr: seq<int> -> seq<real>, occ: seq<int>, flips: seq<Flip>)
    requires SitesIn(flips, |occ|)
    requires ReturnsLength(single, len)
    requires ExactSingleFlip(single, bySite, len, corr)
    ensures DeltaSum(single, bySite, len, occ, flips) == VecSub(corr(Apply(occ, flips)), corr(occ))
    decreases |flips|
  {
    if flips != [] {
      var init := flips[..|flips| - 1];
      var f := flips[|flips| - 1];
      var mid := Apply(occ, init);
      DeltaTelescopes(single, bySite, len, corr, occ, init);
      assert Apply(occ, flips) == mid[f.0 := f.1];
      UseExact(single, bySite, len, corr, mid, f.0, f.1);
    }
  }
}
