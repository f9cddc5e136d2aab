/**
 * The index and identifier bookkeeping of a cluster subspace: orbits grouped
 * by cluster size, the contiguous orbit and correlation-function ids they
 * are given, pruning of orbits and of single bit combos, the supercell index
 * cache, external terms, and the encoding of a matched structure.
 */
module ClusterSpace {
  import opened Errors
  import opened Supercell
  import RowKeys

  /**
   * An orbit, as far as the subspace's bookkeeping sees it: its cluster
   * size, the ids it was given, its bit combos (one correlation function
   * each), the number of clusters it holds in the primitive cell and the
   * diameter of its base cluster.
   */
  datatype Orbit = Orbit(size: nat, id: nat, bitId: nat, bitCombos: seq<BitCombo>,
                         numClusters: nat, diameter: real)

  /** One entry of the size-keyed orbit dictionary. */
  datatype SizeGroup = SizeGroup(size: nat, orbits: seq<Orbit>)

  /** The running (orbit id, function id, cluster id) triple of the id assignment. */
  datatype Counts = Counts(orbits: nat, functions: nat, clusters: nat)

  /** Dictionary keys are distinct; the model keeps them in ascending order. */
  predicate KeysAscending(gs: seq<SizeGroup>) {
    forall a, b :: 0 <= a < b < |gs| ==> gs[a].size < gs[b].size
  }

  /** All orbits, group after group (the `orbits` property). */
  function Flatten(gs: seq<SizeGroup>): (r: seq<Orbit>)
    decreases |gs|
  {
    if gs == [] then [] else Flatten(gs[..|gs| - 1]) + gs[|gs| - 1].orbits
  }

  /** The number of correlation functions of a list of orbits. */
  function LenSum(os: seq<Orbit>): nat
    decreases |os|
  {
    if os == [] then 0 else LenSum(os[..|os| - 1]) + |os[|os| - 1].bitCombos|
  }

  function ClusterSum(os: seq<Orbit>): nat
    decreases |os|
  {
    if os == [] then 0 else ClusterSum(os[..|os| - 1]) + os[|os| - 1].numClusters
  }

  /** The orbits carry the same combos and clusters, whatever their ids. */
  predicate SameShape(a: seq<Orbit>, b: seq<Orbit>) {
    |a| == |b|
    && forall k :: 0 <= k < |a| ==> a[k].bitCombos == b[k].bitCombos && a[k].numClusters == b[k].numClusters
  }

  lemma {:induction false} SameShapeSums(a: seq<Orbit>, b: seq<Orbit>)
    requires SameShape(a, b)
    ensures LenSum(a) == LenSum(b) && ClusterSum(a) == ClusterSum(b)
    decreases |a|
  {
    if a != [] {
      SameShapeSums(a[..|a| - 1], b[..|b| - 1]);
    }
  }

  lemma LenSumPrefix(os: seq<Orbit>, k: nat)
    requires k < |os|
    ensures LenSum(os[..k + 1]) == LenSum(os[..k]) + |os[k].bitCombos|
  {
    assert os[..k + 1][..k] == os[..k];
  }

  // ---------------------------------------------------------------------
  // _assign_orbit_ids
  // ---------------------------------------------------------------------

  /**
   * `Orbit.assign_ids`: the orbit takes the current orbit and function ids
   * and hands on the next free ones. orbit.py is not part of this model;
   * this is the behaviour the subspace relies on.
   */
  function AssignIds(o: Orbit, c: Counts): (r: (Orbit, Counts))
    ensures r.0 == o.(id := c.orbits, bitId := c.functions)
    ensures r.1 == Counts(c.orbits + 1, c.functions + |o.bitCombos|, c.clusters + o.numClusters)
  {
    (o.(id := c.orbits, bitId := c.functions),
     Counts(c.orbits + 1, c.functions + |o.bitCombos|, c.clusters + o.numClusters))
  }

  /** Assigning ids to the orbits in order, threading the counts. */
  function AssignAll(os: seq<Orbit>, c: Counts): (r: (seq<Orbit>, Counts))
    ensures |r.0| == |os|
    decreases |os|
  {
    if os == [] then ([], c)
    else
      var p := AssignAll(os[..|os| - 1], c);
      var q := AssignIds(os[|os| - 1], p.1);
      (p.0 + [q.0], q.1)
  }

  /**
   * `r` is `os` renumbered from `c`: orbit `k` has orbit id `c.orbits + k`
   * and, as its first function id, the first one after those of the
   * orbits before it.
   */
  predicate Renumbered(r: seq<Orbit>, os: seq<Orbit>, c: Counts) {
    |r| == |os|
    && forall k :: 0 <= k < |os| ==>
         r[k] == os[k].(id := c.orbits + k, bitId := c.functions + LenSum(os[..k]))
  }

  /** Renumbering extends by one orbit that takes the next ids. */
  lemma RenumberedSnoc(r: seq<Orbit>, os: seq<Orbit>, c: Counts, o: Orbit)
    requires os != [] && Renumbered(r, os[..|os| - 1], c) && o == os[|os| - 1]
    ensures Renumbered(r + [o.(id := c.orbits + |r|, bitId := c.functions + LenSum(os[..|os| - 1]))], os, c)
  {
    var n := |os| - 1;
    var r' := r + [o.(id := c.orbits + |r|, bitId := c.functions + LenSum(os[..n]))];
    forall k | 0 <= k < |os|
      ensures r'[k] == os[k].(id := c.orbits + k, bitId := c.functions + LenSum(os[..k]))
    {
      if k < n {
        assert r'[k] == r[k];
        assert os[..n][..k] == os[..k] && os[..n][k] == os[k];
      } else {
        assert os[..n] == os[..k];
      }
    }
  }

  /** Assignment renumbers the orbits and advances the counts by the totals. */
  lemma {:induction false} AssignAllMeaning(os: seq<Orbit>, c: Counts)
    ensures Renumbered(AssignAll(os, c).0, os, c)
    ensures AssignAll(os, c).1 == Counts(c.orbits + |os|, c.functions + LenSum(os), c.clusters + ClusterSum(os))
    decreases |os|
  {
    if os != [] {
      var n := |os| - 1;
      AssignAllMeaning(os[..n], c);
      RenumberedSnoc(AssignAll(os[..n], c).0, os, c, os[n]);
    }
  }

  /** Assignment over a concatenation is assignment over each part in turn. */
  lemma {:induction false} AssignAllAppend(a: seq<Orbit>, b: seq<Orbit>, c: Counts)
    ensures AssignAll(a + b, c).0 == AssignAll(a, c).0 + AssignAll(b, AssignAll(a, c).1).0
    ensures AssignAll(a + b, c).1 == AssignAll(b, AssignAll(a, c).1).1
    decreases |b|
  {
    if b == [] {
      assert a + b == a;
    } else {
      var n := |b| - 1;
      assert (a + b)[..|a + b| - 1] == a + b[..n];
      assert (a + b)[|a + b| - 1] == b[n];
      AssignAllAppend(a, b[..n], c);
    }
  }

  /** The id invariant of a subspace: ids are positional and the counters are the totals. */
  predicate IdsAssigned(os: seq<Orbit>, n: Counts) {
    (forall k :: 0 <= k < |os| ==> os[k].id == 1 + k && os[k].bitId == 1 + LenSum(os[..k]))
    && n == Counts(1 + |os|, 1 + LenSum(os), 1 + ClusterSum(os))
  }

  /** Assigning from `(1, 1, 1)` establishes the id invariant. */
  lemma {:induction false} AssignEstablishes(os: seq<Orbit>)
    ensures SameShape(AssignAll(os, Counts(1, 1, 1)).0, os)
    ensures IdsAssigned(AssignAll(os, Counts(1, 1, 1)).0, AssignAll(os, Counts(1, 1, 1)).1)
  {
    var r := AssignAll(os, Counts(1, 1, 1));
    AssignAllMeaning(os, Counts(1, 1, 1));
    var rs := r.0;
    assert Renumbered(rs, os, Counts(1, 1, 1));
    assert SameShape(rs, os);
    SameShapeSums(rs, os);
    forall k | 0 <= k < |os| ensures rs[k].id == 1 + k && rs[k].bitId == 1 + LenSum(rs[..k]) {
      assert SameShape(rs[..k], os[..k]);
      SameShapeSums(rs[..k], os[..k]);
    }
    assert IdsAssigned(rs, r.1);
  }

  /** One dictionary entry's pass of `_assign_orbit_ids`. */
  method AssignGroupIds(os: seq<Orbit>, c0: Counts) returns (out: seq<Orbit>, c: Counts)
    ensures out == AssignAll(os, c0).0 && c == AssignAll(os, c0).1
  {
    out := [];
    c := c0;
    var k := 0;
    while k < |os|
      invariant 0 <= k <= |os|
      invariant out == AssignAll(os[..k], c0).0 && c == AssignAll(os[..k], c0).1
    {
      assert os[..k + 1][..k] == os[..k];
      var q := AssignIds(os[k], c);
      out := out + [q.0];
      c := q.1;
      k := k + 1;
    }
    assert os[..k] == os;
  }

  lemma FlattenPrefix(gs: seq<SizeGroup>, g: nat)
    requires g < |gs|
    ensures Flatten(gs[..g + 1]) == Flatten(gs[..g]) + gs[g].orbits
  {
    assert gs[..g + 1][..g] == gs[..g];
  }

  /** One more group, with orbits as many as the source group's, extends both flattenings. */
  lemma ExtendGroups(out: seq<SizeGroup>, gs: seq<SizeGroup>, g: nat, os: seq<Orbit>)
    requires g < |gs| && SameGroups(out, gs[..g]) && |os| == |gs[g].orbits|
    ensures SameGroups(out + [SizeGroup(gs[g].size, os)], gs[..g + 1])
    ensures Flatten(out + [SizeGroup(gs[g].size, os)]) == Flatten(out) + os
    ensures Flatten(gs[..g + 1]) == Flatten(gs[..g]) + gs[g].orbits
  {
    FlattenPrefix(gs, g);
    assert (out + [SizeGroup(gs[g].size, os)])[..|out|] == out;
  }

  /**
   * The groups after ids are handed out again: the same group boundaries,
   * and the orbits, read group after group, numbered from `(1, 1, 1)`.
   */
  predicate GroupsRenumbered(after: seq<SizeGroup>, before: seq<SizeGroup>) {
    SameGroups(after, before) && Flatten(after) == AssignAll(Flatten(before), Counts(1, 1, 1)).0
  }

  /** Replacing each group's orbits by same-length lists keeps the group boundaries. */
  predicate SameGroups(a: seq<SizeGroup>, b: seq<SizeGroup>) {
    |a| == |b| && forall g :: 0 <= g < |a| ==> a[g].size == b[g].size && |a[g].orbits| == |b[g].orbits|
  }

  /**
   * The loop of `_assign_orbit_ids` over the dictionary: the groups keep
   * their sizes and lengths, and the orbits, read group after group, get
   * their ids as one sequence would.
   */
  method AssignGroups(gs: seq<SizeGroup>) returns (out: seq<SizeGroup>, c: Counts)
    requires KeysAscending(gs)
    ensures GroupsRenumbered(out, gs) && KeysAscending(out)
    ensures c == AssignAll(Flatten(gs), Counts(1, 1, 1)).1
    ensures IdsAssigned(Flatten(out), c)
  {
    out := [];
    c := Counts(1, 1, 1);
    var g := 0;
    while g < |gs|
      invariant 0 <= g <= |gs|
      invariant SameGroups(out, gs[..g])
      invariant Flatten(out) == AssignAll(Flatten(gs[..g]), Counts(1, 1, 1)).0
      invariant c == AssignAll(Flatten(gs[..g]), Counts(1, 1, 1)).1
    {
      var os, c' := AssignGroupIds(gs[g].orbits, c);
      ExtendGroups(out, gs, g, os);
      AssignAllAppend(Flatten(gs[..g]), gs[g].orbits, Counts(1, 1, 1));
      out := out + [SizeGroup(gs[g].size, os)];
      c := c';
      g := g + 1;
    }
    assert gs[..g] == gs;
    AssignEstablishes(Flatten(gs));
    forall a, b | 0 <= a < b < |out| ensures out[a].size < out[b].size {
      assert out[a].size == gs[a].size && out[b].size == gs[b].size;
    }
  }

  lemma {:induction false} LenSumMonotone(os: seq<Orbit>, k: nat, m: nat)
    requires k <= m <= |os|
    ensures LenSum(os[..k]) <= LenSum(os[..m])
    decreases m - k
  {
    if k < m {
      LenSumMonotone(os, k, m - 1);
      LenSumPrefix(os, m - 1);
    }
  }

  /** Each orbit's function range ends within the total. */
  lemma PrefixWithin(os: seq<Orbit>)
    ensures forall k :: 0 <= k < |os| ==> LenSum(os[..k]) + |os[k].bitCombos| <= LenSum(os)
  {
    forall k | 0 <= k < |os| ensures LenSum(os[..k]) + |os[k].bitCombos| <= LenSum(os) {
      LenSumPrefix(os, k);
      LenSumMonotone(os, k + 1, |os|);
      assert os[..|os|] == os;
    }
  }

  // ---------------------------------------------------------------------
  // function_orbit_ids and all_bit_combos
  // ---------------------------------------------------------------------

  /** `[0]` followed by each orbit's id repeated once per bit combo. */
  function FunctionOrbitIdsOf(os: seq<Orbit>): (r: seq<nat>)
    ensures |r| == 1 + LenSum(os)
    decreases |os|
  {
    if os == [] then [0]
    else
      var last := os[|os| - 1];
      FunctionOrbitIdsOf(os[..|os| - 1]) + seq(|last.bitCombos|, _ => last.id)
  }

  /** A function id in the range of orbit `k` is labelled with that orbit's id. */
  lemma {:induction false} FunctionOrbitIdsAt(os: seq<Orbit>, k: int, j: int)
    requires 0 <= k < |os| && 1 + LenSum(os[..k]) <= j < 1 + LenSum(os[..k]) + |os[k].bitCombos|
    ensures j < |FunctionOrbitIdsOf(os)| && FunctionOrbitIdsOf(os)[j] == os[k].id
    decreases |os|
  {
    var n := |os| - 1;
    LenSumPrefix(os, k);
    var init := os[..n];
    if k < n {
      LenSumMonotone(os, k + 1, n);
      assert init[..k] == os[..k] && init[k] == os[k];
      FunctionOrbitIdsAt(init, k, j);
    } else {
      assert init == os[..k];
    }
  }

  /** Every entry in the function range of orbit `k` holds that orbit's id. */
  predicate LabelsRanges(r: seq<nat>, os: seq<Orbit>) {
    forall k, j :: 0 <= k < |os| && 1 + LenSum(os[..k]) <= j < 1 + LenSum(os[..k]) + |os[k].bitCombos| && j < |r|
      ==> r[j] == os[k].id
  }

  /**
   * Entry 0 belongs to the empty orbit and each function is labelled with
   * its orbit (every orbit's range lies within the list).
   */
  lemma {:induction false} FunctionOrbitIdsMeaning(os: seq<Orbit>)
    ensures FunctionOrbitIdsOf(os)[0] == 0
    ensures forall k :: 0 <= k < |os| ==> LenSum(os[..k]) + |os[k].bitCombos| <= LenSum(os)
    ensures LabelsRanges(FunctionOrbitIdsOf(os), os)
  {
    var r := FunctionOrbitIdsOf(os);
    PrefixWithin(os);
    forall k, j | 0 <= k < |os| && 1 + LenSum(os[..k]) <= j < 1 + LenSum(os[..k]) + |os[k].bitCombos| && j < |r|
      ensures r[j] == os[k].id
    {
      FunctionOrbitIdsAt(os, k, j);
    }
    FunctionOrbitIdsHead(os);
  }

  lemma {:induction false} FunctionOrbitIdsHead(os: seq<Orbit>)
    ensures FunctionOrbitIdsOf(os)[0] == 0
    decreases |os|
  {
    if os != [] { FunctionOrbitIdsHead(os[..|os| - 1]); }
  }

  /** `[None]` followed by every orbit's bit combos in order. */
  function AllBitCombos(os: seq<Orbit>): (r: seq<Option<BitCombo>>)
    ensures |r| == 1 + LenSum(os)
    decreases |os|
  {
    if os == [] then [None]
    else
      var last := os[|os| - 1];
      AllBitCombos(os[..|os| - 1]) + seq(|last.bitCombos|, i requires 0 <= i < |last.bitCombos| => Some(last.bitCombos[i]))
  }

  /** Position `1 + (functions before orbit k) + i` holds combo `i` of orbit `k`. */
  lemma {:induction false} AllBitCombosAt(os: seq<Orbit>, k: int, i: int)
    requires 0 <= k < |os| && 0 <= i < |os[k].bitCombos|
    ensures 1 + LenSum(os[..k]) + i < |AllBitCombos(os)|
    ensures AllBitCombos(os)[1 + LenSum(os[..k]) + i] == Some(os[k].bitCombos[i])
    decreases |os|
  {
    var n := |os| - 1;
    LenSumPrefix(os, k);
    var init := os[..n];
    if k < n {
      LenSumMonotone(os, k + 1, n);
      assert init[..k] == os[..k] && init[k] == os[k];
      AllBitCombosAt(init, k, i);
    } else {
      assert init == os[..k];
    }
  }

  lemma {:induction false} AllBitCombosHead(os: seq<Orbit>)
    ensures AllBitCombos(os)[0] == None
    decreases |os|
  {
    if os != [] { AllBitCombosHead(os[..|os| - 1]); }
  }

  /** Entry `bit_id + i` of each orbit is its combo `i`. */
  predicate IndexedByBitId(r: seq<Option<BitCombo>>, os: seq<Orbit>) {
    forall k, i :: 0 <= k < |os| && 0 <= i < |os[k].bitCombos| && os[k].bitId + i < |r|
      ==> r[os[k].bitId + i] == Some(os[k].bitCombos[i])
  }

  /**
   * On a subspace whose ids are assigned, `all_bit_combos` is indexed by
   * function id: it has one entry per correlation function, entry 0 is
   * `None`, and entry `bit_id + i` of an orbit is its combo `i`.
   */
  lemma {:induction false} AllBitCombosById(os: seq<Orbit>, n: Counts)
    requires IdsAssigned(os, n)
    ensures |AllBitCombos(os)| == n.functions && AllBitCombos(os)[0] == None
    ensures forall k :: 0 <= k < |os| ==> os[k].bitId + |os[k].bitCombos| <= n.functions
    ensures IndexedByBitId(AllBitCombos(os), os)
  {
    var r := AllBitCombos(os);
    AllBitCombosHead(os);
    PrefixWithin(os);
    forall k, i | 0 <= k < |os| && 0 <= i < |os[k].bitCombos| && os[k].bitId + i < |r|
      ensures r[os[k].bitId + i] == Some(os[k].bitCombos[i])
    {
      AllBitCombosAt(os, k, i);
    }
  }

  // ---------------------------------------------------------------------
  // orbits_from_cutoffs and function_inds_from_cutoffs
  // ---------------------------------------------------------------------

  /** A diameter cutoff: one value for every size, or a size-keyed dictionary. */
  datatype Cutoff = Uniform(value: real) | BySize(entries: seq<(nat, real)>)

  /** Dictionary lookup (the first entry with the key). */
  function Lookup(entries: seq<(nat, real)>, k: nat): (r: Option<real>)
    ensures r.Some? <==> exists j :: 0 <= j < |entries| && entries[j].0 == k
  {
    if entries == [] then None
    else if entries[0].0 == k then Some(entries[0].1)
    else
      var r := Lookup(entries[1..], k);
      assert forall j :: 1 <= j < |entries| ==> entries[j] == entries[1..][j - 1];
      r
  }

  /** The orbits stored under size `k`, if that key exists. */
  function GroupOf(gs: seq<SizeGroup>, k: nat): (r: Option<seq<Orbit>>)
    ensures r.Some? <==> exists g :: 0 <= g < |gs| && gs[g].size == k
  {
    if gs == [] then None
    else if gs[0].size == k then Some(gs[0].orbits)
    else
      var r := GroupOf(gs[1..], k);
      assert forall g :: 1 <= g < |gs| ==> gs[g] == gs[1..][g - 1];
      r
  }

  /** The (size, upper cutoff) pairs in the order the source walks them. */
  function UpperPairs(gs: seq<SizeGroup>, upper: Cutoff): (r: seq<(nat, real)>)
  {
    match upper
    case Uniform(v) => seq(|gs|, g requires 0 <= g < |gs| => (gs[g].size, v))
    case BySize(e) => e
  }

  function LowerFor(lower: Cutoff, k: nat): Option<real> {
    match lower
    case Uniform(v) => Some(v)
    case BySize(e) => Lookup(e, k)
  }

  /** The orbits whose diameter lies in `[lo, hi]`, in order. */
  function InWindow(os: seq<Orbit>, lo: real, hi: real): (r: seq<Orbit>)
    ensures forall o :: o in r <==> o in os && lo <= o.diameter <= hi
    decreases |os|
  {
    if os == [] then []
    else
      var init := InWindow(os[..|os| - 1], lo, hi);
      assert forall o :: o in os <==> o in os[..|os| - 1] || o == os[|os| - 1] by {
        assert os == os[..|os| - 1] + [os[|os| - 1]];
      }
      var last := os[|os| - 1];
      if lo <= last.diameter <= hi then init + [last] else init
  }

  /** A size the walk visits without raising. */
  predicate PairOk(gs: seq<SizeGroup>, p: (nat, real), lower: Cutoff) {
    GroupOf(gs, p.0).Some? && (GroupOf(gs, p.0).value != [] ==> LowerFor(lower, p.0).Some?)
  }

  /** `o` is kept for the size of pair `p`. */
  predicate KeptFor(gs: seq<SizeGroup>, p: (nat, real), lower: Cutoff, o: Orbit)
    requires PairOk(gs, p, lower)
  {
    o in GroupOf(gs, p.0).value && LowerFor(lower, p.0).value <= o.diameter <= p.1
  }

  /**
   * The walk of `orbits_from_cutoffs` over the given pairs: a size that is
   * not a key of the dictionary raises KeyError, and so does a non-empty
   * size that a lower-cutoff dictionary lacks.
   */
  function Select(gs: seq<SizeGroup>, pairs: seq<(nat, real)>, lower: Cutoff): (r: Result<seq<Orbit>>)
    decreases |pairs|
  {
    if pairs == [] then Ok([])
    else
      var prev := Select(gs, pairs[..|pairs| - 1], lower);
      var p := pairs[|pairs| - 1];
      if prev.Err? then prev
      else match GroupOf(gs, p.0)
        case None => Err(KeyError("no orbits of this size"))
        case Some(os) =>
          if os == [] then prev
          else match LowerFor(lower, p.0)
            case None => Err(KeyError("no lower cutoff for this size"))
            case Some(lo) => Ok(prev.value + InWindow(os, lo, p.1))
  }

  /** `orbits_from_cutoffs(upper, lower)`. */
  function OrbitsFromCutoffs(gs: seq<SizeGroup>, upper: Cutoff, lower: Cutoff): Result<seq<Orbit>> {
    Select(gs, UpperPairs(gs, upper), lower)
  }

  /** The walk succeeds exactly when every visited size is valid, and it only raises KeyError. */
  lemma {:induction false} SelectOk(gs: seq<SizeGroup>, pairs: seq<(nat, real)>, lower: Cutoff)
    ensures Select(gs, pairs, lower).Ok? <==> forall j :: 0 <= j < |pairs| ==> PairOk(gs, pairs[j], lower)
    ensures Select(gs, pairs, lower).Err? ==> Select(gs, pairs, lower).error.KeyError?
    decreases |pairs|
  {
    if pairs != [] {
      var n := |pairs| - 1;
      SelectOk(gs, pairs[..n], lower);
      assert forall j :: 0 <= j < n ==> pairs[..n][j] == pairs[j];
    }
  }

  /** Some visited size keeps `o`: `o` is in its group and within its cutoffs. */
  predicate KeptByPairs(gs: seq<SizeGroup>, pairs: seq<(nat, real)>, lower: Cutoff, o: Orbit) {
    exists j :: 0 <= j < |pairs| && PairOk(gs, pairs[j], lower) && KeptFor(gs, pairs[j], lower, o)
  }

  /** It keeps exactly the orbits of visited sizes whose diameter lies within that size's cutoffs. */
  lemma {:induction false} SelectContents(gs: seq<SizeGroup>, pairs: seq<(nat, real)>, lower: Cutoff, o: Orbit)
    requires Select(gs, pairs, lower).Ok?
    ensures o in Select(gs, pairs, lower).value <==> KeptByPairs(gs, pairs, lower, o)
    decreases |pairs|
  {
    if pairs != [] {
      SelectStep(gs, pairs, lower, o);
      SelectContents(gs, pairs[..|pairs| - 1], lower, o);
      KeptBySplit(gs, pairs, lower, o);
    }
  }

  /** A pair list keeps `o` when its prefix does or its last pair does. */
  lemma KeptBySplit(gs: seq<SizeGroup>, pairs: seq<(nat, real)>, lower: Cutoff, o: Orbit)
    requires pairs != []
    ensures KeptByPairs(gs, pairs, lower, o) <==>
      KeptByPairs(gs, pairs[..|pairs| - 1], lower, o)
      || (PairOk(gs, pairs[|pairs| - 1], lower) && KeptFor(gs, pairs[|pairs| - 1], lower, o))
  {
    var n := |pairs| - 1;
    var init := pairs[..n];
    if KeptByPairs(gs, pairs, lower, o) {
      var j :| 0 <= j < |pairs| && PairOk(gs, pairs[j], lower) && KeptFor(gs, pairs[j], lower, o);
      if j < n {
        assert init[j] == pairs[j];
      }
    }
    if KeptByPairs(gs, init, lower, o) {
      var j :| 0 <= j < n && PairOk(gs, init[j], lower) && KeptFor(gs, init[j], lower, o);
      assert init[j] == pairs[j];
    }
  }

  /** One more pair keeps what the shorter walk kept and the orbits kept for that pair. */
  lemma SelectStep(gs: seq<SizeGroup>, pairs: seq<(nat, real)>, lower: Cutoff, o: Orbit)
    requires pairs != [] && Select(gs, pairs, lower).Ok?
    ensures Select(gs, pairs[..|pairs| - 1], lower).Ok? && PairOk(gs, pairs[|pairs| - 1], lower)
    ensures o in Select(gs, pairs, lower).value <==>
              o in Select(gs, pairs[..|pairs| - 1], lower).value || KeptFor(gs, pairs[|pairs| - 1], lower, o)
  {
    var p := pairs[|pairs| - 1];
    var prev := Select(gs, pairs[..|pairs| - 1], lower);
    var os := GroupOf(gs, p.0).value;
    if os != [] {
      var lo := LowerFor(lower, p.0).value;
      assert Select(gs, pairs, lower).value == prev.value + InWindow(os, lo, p.1);
    }
  }

  /** Every function id of the orbits, orbit after orbit (`range(bit_id, bit_id + len)`). */
  function FunctionRanges(os: seq<Orbit>): (r: seq<nat>)
    decreases |os|
  {
    if os == [] then []
    else
      var last := os[|os| - 1];
      FunctionRanges(os[..|os| - 1]) + seq(|last.bitCombos|, i => last.bitId + i)
  }

  /** An id is listed exactly when it lies in the function range of one of the orbits. */
  lemma {:induction false} FunctionRangesMeaning(os: seq<Orbit>)
    ensures forall x :: x in FunctionRanges(os) <==>
      exists k :: 0 <= k < |os| && os[k].bitId <= x < os[k].bitId + |os[k].bitCombos|
    decreases |os|
  {
    if os != [] {
      var n := |os| - 1;
      var init := os[..n];
      FunctionRangesMeaning(init);
      var last := os[n];
      var tail := seq(|last.bitCombos|, i => last.bitId + i);
      forall x ensures x in FunctionRanges(os) <==>
        exists k :: 0 <= k < |os| && os[k].bitId <= x < os[k].bitId + |os[k].bitCombos|
      {
        if last.bitId <= x < last.bitId + |last.bitCombos| {
          assert tail[x - last.bitId] == x;
        }
        if exists k :: 0 <= k < n && os[k].bitId <= x < os[k].bitId + |os[k].bitCombos| {
          var k :| 0 <= k < n && os[k].bitId <= x < os[k].bitId + |os[k].bitCombos|;
          assert init[k] == os[k];
        }
        if exists k :: 0 <= k < n && init[k].bitId <= x < init[k].bitId + |init[k].bitCombos| {
          var k :| 0 <= k < n && init[k].bitId <= x < init[k].bitId + |init[k].bitCombos|;
          assert init[k] == os[k];
        }
      }
    }
  }

  /** Each function id inside an orbit's range `[bit_id, bit_id + len)` holds that orbit's id. */
  predicate LabelsById(r: seq<nat>, os: seq<Orbit>) {
    forall k, j :: 0 <= k < |os| && os[k].bitId <= j < os[k].bitId + |os[k].bitCombos| && j < |r|
      ==> r[j] == os[k].id
  }

  // ---------------------------------------------------------------------
  // remove_orbits
  // ---------------------------------------------------------------------

  const EmptyListMsg: string := "min() arg is an empty sequence"
  const NegativeIdMsg: string := "Index out of range. Negative inds are not allowed."
  const EmptyOrbitMsg: string := "The empty orbit can not be removed."
  const IdRangeMsg: string := "Index out of range. Total number of orbits is: {self.num_orbits}"

  function SeqMin(xs: seq<int>): (m: int)
    requires xs != []
    ensures m in xs && forall x :: x in xs ==> m <= x
    decreases |xs|
  {
    if |xs| == 1 then xs[0]
    else
      var rest := SeqMin(xs[1..]);
      assert forall x :: x in xs ==> x == xs[0] || x in xs[1..];
      if xs[0] <= rest then xs[0] else rest
  }

  function SeqMax(xs: seq<int>): (m: int)
    requires xs != []
    ensures m in xs && forall x :: x in xs ==> x <= m
    decreases |xs|
  {
    if |xs| == 1 then xs[0]
    else
      var rest := SeqMax(xs[1..]);
      assert forall x :: x in xs ==> x == xs[0] || x in xs[1..];
      if xs[0] >= rest then xs[0] else rest
  }

  /**
   * The argument checks of `remove_orbits`, in the source's order: an
   * empty list fails in `min`, then a negative id, then the empty orbit's
   * id 0, then an id past the last orbit.
   */
  function RemoveOrbitsCheck(ids: seq<int>, numOrbits: int): (r: Outcome)
    ensures r.Pass? <==> ids != [] && forall x :: x in ids ==> 1 <= x <= numOrbits - 1
    ensures ids == [] ==> r == Fail(ValueError(EmptyListMsg))
    ensures (exists x :: x in ids && x < 0) ==> r == Fail(ValueError(NegativeIdMsg))
    ensures (forall x :: x in ids ==> x >= 0) && 0 in ids ==> r == Fail(ValueError(EmptyOrbitMsg))
    ensures (ids != [] && (forall x :: x in ids ==> 1 <= x) && exists x :: x in ids && x > numOrbits - 1)
      ==> r == Fail(ValueError(IdRangeMsg))
  {
    if ids == [] then Fail(ValueError(EmptyListMsg))
    else if SeqMin(ids) < 0 then Fail(ValueError(NegativeIdMsg))
    else if SeqMin(ids) == 0 then Fail(ValueError(EmptyOrbitMsg))
    else if SeqMax(ids) > numOrbits - 1 then Fail(ValueError(IdRangeMsg))
    else Pass
  }

  /** The orbits whose id is not listed, in order. */
  function FilterOut(os: seq<Orbit>, ids: seq<int>): (r: seq<Orbit>)
    ensures forall o :: o in r <==> o in os && o.id as int !in ids
    decreases |os|
  {
    if os == [] then []
    else
      var init := FilterOut(os[..|os| - 1], ids);
      var last := os[|os| - 1];
      assert forall o :: o in os <==> o in os[..|os| - 1] || o == last by {
        assert os == os[..|os| - 1] + [last];
      }
      if last.id as int in ids then init else init + [last]
  }

  lemma {:induction false} FilterOutAppend(a: seq<Orbit>, b: seq<Orbit>, ids: seq<int>)
    ensures FilterOut(a + b, ids) == FilterOut(a, ids) + FilterOut(b, ids)
    decreases |b|
  {
    if b == [] {
      assert a + b == a;
    } else {
      var n := |b| - 1;
      assert (a + b)[..|a + b| - 1] == a + b[..n];
      assert (a + b)[|a + b| - 1] == b[n];
      FilterOutAppend(a, b[..n], ids);
    }
  }

  lemma {:induction false} FilterOutNothing(os: seq<Orbit>)
    ensures FilterOut(os, []) == os
    decreases |os|
  {
    if os != [] {
      FilterOutNothing(os[..|os| - 1]);
      assert os == os[..|os| - 1] + [os[|os| - 1]];
    }
  }

  /** Each size's list filtered; every key is kept, even when its list empties. */
  function FilterGroups(gs: seq<SizeGroup>, ids: seq<int>): (r: seq<SizeGroup>)
    ensures |r| == |gs| && forall g :: 0 <= g < |gs| ==> r[g] == SizeGroup(gs[g].size, FilterOut(gs[g].orbits, ids))
  {
    seq(|gs|, g requires 0 <= g < |gs| => SizeGroup(gs[g].size, FilterOut(gs[g].orbits, ids)))
  }

  /** Renumbering the filtered groups keeps the keys and numbers the orbits left. */
  lemma RenumberedAfterFilter(after: seq<SizeGroup>, gs: seq<SizeGroup>, ids: seq<int>)
    requires GroupsRenumbered(after, FilterGroups(gs, ids))
    requires Flatten(FilterGroups(gs, ids)) == FilterOut(Flatten(gs), ids)
    ensures SameGroupKeys(after, gs)
    ensures Flatten(after) == AssignAll(FilterOut(Flatten(gs), ids), Counts(1, 1, 1)).0
  {
    var f := FilterGroups(gs, ids);
    assert SameGroups(after, f);
    forall g | 0 <= g < |after| ensures after[g].size == gs[g].size {
      assert after[g].size == f[g].size;
    }
  }

  lemma {:induction false} FlattenFilterGroups(gs: seq<SizeGroup>, ids: seq<int>)
    ensures Flatten(FilterGroups(gs, ids)) == FilterOut(Flatten(gs), ids)
    ensures KeysAscending(gs) ==> KeysAscending(FilterGroups(gs, ids))
    decreases |gs|
  {
    if gs != [] {
      var n := |gs| - 1;
      FlattenFilterGroups(gs[..n], ids);
      assert FilterGroups(gs, ids)[..n] == FilterGroups(gs[..n], ids);
      FilterOutAppend(Flatten(gs[..n]), gs[n].orbits, ids);
    }
  }

  // ---------------------------------------------------------------------
  // remove_orbit_bit_combos
  // ---------------------------------------------------------------------

  /**
   * The listed function ids that fall in the orbit's range, shifted to
   * positions within the orbit, in the order listed (repeats kept).
   */
  function ToRemove(o: Orbit, bitIds: seq<int>): (r: seq<int>)
    ensures forall i :: i in r <==> 0 <= i < |o.bitCombos| && o.bitId + i in bitIds
    decreases |bitIds|
  {
    if bitIds == [] then []
    else
      var b := bitIds[|bitIds| - 1];
      var init := ToRemove(o, bitIds[..|bitIds| - 1]);
      assert forall x :: x in bitIds <==> x in bitIds[..|bitIds| - 1] || x == b by {
        assert bitIds == bitIds[..|bitIds| - 1] + [b];
      }
      if o.bitId <= b < o.bitId + |o.bitCombos| then init + [b - o.bitId] else init
  }

  /** The combos among the first `n` whose position is not listed, in order. */
  function KeepCombos(cs: seq<BitCombo>, inds: seq<int>, n: nat): (r: seq<BitCombo>)
    requires n <= |cs|
    ensures forall x :: x in r <==> exists i :: 0 <= i < n && i !in inds && cs[i] == x
    decreases n
  {
    if n == 0 then []
    else
      var init := KeepCombos(cs, inds, n - 1);
      if n - 1 in inds then init else init + [cs[n - 1]]
  }

  lemma {:induction false} KeepNone(cs: seq<BitCombo>, inds: seq<int>, n: nat)
    requires n <= |cs| && forall i :: 0 <= i < n ==> i in inds
    ensures KeepCombos(cs, inds, n) == []
    decreases n
  {
    if n > 0 { KeepNone(cs, inds, n - 1); }
  }

  /**
   * `Orbit.remove_bit_combos_by_inds`: the combos at the listed positions
   * go; when none would remain the orbit raises RuntimeError. orbit.py is
   * not part of this model; this is the behaviour the subspace relies on.
   */
  function RemoveCombosByInds(o: Orbit, inds: seq<int>): (r: Result<Orbit>)
    ensures r.Ok? ==> r.value == o.(bitCombos := KeepCombos(o.bitCombos, inds, |o.bitCombos|))
    ensures r.Err? <==> KeepCombos(o.bitCombos, inds, |o.bitCombos|) == []
  {
    var kept := KeepCombos(o.bitCombos, inds, |o.bitCombos|);
    if kept == [] then Err(RuntimeError("All bit combos have been removed"))
    else Ok(o.(bitCombos := kept))
  }

  /**
   * One orbit's pass of `remove_orbit_bit_combos`: the pruned orbit, and
   * whether it lost every combo (so it is to be removed).
   */
  function PruneOrbit(o: Orbit, bitIds: seq<int>): (Orbit, bool) {
    var inds := ToRemove(o, bitIds);
    if inds == [] then (o, false)
    else match RemoveCombosByInds(o, inds)
      case Ok(o2) => (o2, false)
      case Err(_) => (o, true)
  }

  /**
   * An orbit is emptied exactly when it has combos and every one of its
   * function ids is listed; otherwise it keeps its ids and exactly the
   * combos whose function id is not listed.
   */
  lemma PruneOrbitMeaning(o: Orbit, bitIds: seq<int>)
    ensures PruneOrbit(o, bitIds).1 <==>
      |o.bitCombos| > 0 && forall j :: o.bitId <= j < o.bitId + |o.bitCombos| ==> j in bitIds
    ensures PruneOrbit(o, bitIds).0.id == o.id && PruneOrbit(o, bitIds).0.bitId == o.bitId
    ensures !PruneOrbit(o, bitIds).1 ==> forall x :: x in PruneOrbit(o, bitIds).0.bitCombos <==>
      exists i :: 0 <= i < |o.bitCombos| && o.bitId + i !in bitIds && o.bitCombos[i] == x
  {
    var inds := ToRemove(o, bitIds);
    var kept := KeepCombos(o.bitCombos, inds, |o.bitCombos|);
    if |o.bitCombos| > 0 && forall j :: o.bitId <= j < o.bitId + |o.bitCombos| ==> j in bitIds {
      assert o.bitId + 0 in bitIds;
      assert 0 in inds;
      forall i | 0 <= i < |o.bitCombos| ensures i in inds {
        assert o.bitId + i in bitIds;
      }
      KeepNone(o.bitCombos, inds, |o.bitCombos|);
    } else {
      forall i | 0 <= i < |o.bitCombos| ensures i in inds <==> o.bitId + i in bitIds {
      }
      if inds != [] {
        assert inds[0] in inds;
        var j :| o.bitId <= j < o.bitId + |o.bitCombos| && j !in bitIds;
        var i := j - o.bitId;
        assert i !in inds;
        assert o.bitCombos[i] in kept;
      } else {
        forall x | x in o.bitCombos
          ensures exists i :: 0 <= i < |o.bitCombos| && o.bitId + i !in bitIds && o.bitCombos[i] == x
        {
          var i :| 0 <= i < |o.bitCombos| && o.bitCombos[i] == x;
          assert i !in inds;
        }
      }
    }
  }

  /** Every orbit pruned in order, with the ids of the emptied ones. */
  function PruneAll(os: seq<Orbit>, bitIds: seq<int>): (r: (seq<Orbit>, seq<int>))
    ensures |r.0| == |os|
    decreases |os|
  {
    if os == [] then ([], [])
    else
      var p := PruneAll(os[..|os| - 1], bitIds);
      var last := os[|os| - 1];
      var q := PruneOrbit(last, bitIds);
      (p.0 + [q.0], if q.1 then p.1 + [last.id as int] else p.1)
  }

  /** The ids of the orbits a pruning empties pass the checks of `remove_orbits`. */
  lemma EmptiedIdsValid(os: seq<Orbit>, bitIds: seq<int>, n: Counts)
    requires IdsAssigned(os, n)
    ensures PruneAll(os, bitIds).1 != [] ==> RemoveOrbitsCheck(PruneAll(os, bitIds).1, n.orbits).Pass?
  {
    PruneAllMeaning(os, bitIds);
    forall x | x in PruneAll(os, bitIds).1 ensures 1 <= x <= n.orbits - 1 {
      var k :| 0 <= k < |os| && x == os[k].id as int;
    }
  }

  lemma {:induction false} PruneAllMeaning(os: seq<Orbit>, bitIds: seq<int>)
    ensures forall k :: 0 <= k < |os| ==> PruneAll(os, bitIds).0[k] == PruneOrbit(os[k], bitIds).0
    ensures forall x :: x in PruneAll(os, bitIds).1 ==> exists k :: 0 <= k < |os| && x == os[k].id as int
    decreases |os|
  {
    if os != [] {
      var n := |os| - 1;
      PruneAllMeaning(os[..n], bitIds);
      assert forall k :: 0 <= k < n ==> os[..n][k] == os[k];
    }
  }

  lemma {:induction false} PruneAllAppend(a: seq<Orbit>, b: seq<Orbit>, bitIds: seq<int>)
    ensures PruneAll(a + b, bitIds).0 == PruneAll(a, bitIds).0 + PruneAll(b, bitIds).0
    ensures PruneAll(a + b, bitIds).1 == PruneAll(a, bitIds).1 + PruneAll(b, bitIds).1
    decreases |b|
  {
    if b == [] {
      assert a + b == a;
    } else {
      var n := |b| - 1;
      assert (a + b)[..|a + b| - 1] == a + b[..n];
      assert (a + b)[|a + b| - 1] == b[n];
      PruneAllAppend(a, b[..n], bitIds);
    }
  }

  /** One dictionary entry's pass of the pruning loop. */
  method PruneGroup(os: seq<Orbit>, bitIds: seq<int>) returns (out: seq<Orbit>, emptied: seq<int>)
    ensures out == PruneAll(os, bitIds).0 && emptied == PruneAll(os, bitIds).1
  {
    out := [];
    emptied := [];
    var k := 0;
    while k < |os|
      invariant 0 <= k <= |os|
      invariant out == PruneAll(os[..k], bitIds).0 && emptied == PruneAll(os[..k], bitIds).1
    {
      assert os[..k + 1][..k] == os[..k];
      var q := PruneOrbit(os[k], bitIds);
      out := out + [q.0];
      if q.1 {
        emptied := emptied + [os[k].id as int];
      }
      k := k + 1;
    }
    assert os[..k] == os;
  }

  /** Every size's list pruned on its own: each orbit stays under its own size. */
  function PrunedGroups(gs: seq<SizeGroup>, bitIds: seq<int>): (r: seq<SizeGroup>)
    ensures |r| == |gs| && forall g :: 0 <= g < |gs| ==> r[g] == SizeGroup(gs[g].size, PruneAll(gs[g].orbits, bitIds).0)
  {
    seq(|gs|, g requires 0 <= g < |gs| => SizeGroup(gs[g].size, PruneAll(gs[g].orbits, bitIds).0))
  }

  /** The pruning loop over the dictionary (`iterorbits`). */
  method PruneGroups(gs: seq<SizeGroup>, bitIds: seq<int>) returns (out: seq<SizeGroup>, emptied: seq<int>)
    requires KeysAscending(gs)
    ensures SameGroups(out, gs) && KeysAscending(out) && out == PrunedGroups(gs, bitIds)
    ensures Flatten(out) == PruneAll(Flatten(gs), bitIds).0 && emptied == PruneAll(Flatten(gs), bitIds).1
  {
    out := [];
    emptied := [];
    var g := 0;
    while g < |gs|
      invariant 0 <= g <= |gs|
      invariant SameGroups(out, gs[..g])
      invariant forall h :: 0 <= h < g ==> out[h] == SizeGroup(gs[h].size, PruneAll(gs[h].orbits, bitIds).0)
      invariant Flatten(out) == PruneAll(Flatten(gs[..g]), bitIds).0
      invariant emptied == PruneAll(Flatten(gs[..g]), bitIds).1
    {
      var os, e := PruneGroup(gs[g].orbits, bitIds);
      ExtendGroups(out, gs, g, os);
      PruneAllAppend(Flatten(gs[..g]), gs[g].orbits, bitIds);
      ghost var prev := out;
      out := out + [SizeGroup(gs[g].size, os)];
      assert forall h :: 0 <= h < g ==> out[h] == prev[h];
      emptied := emptied + e;
      g := g + 1;
    }
    assert gs[..g] == gs;
    forall a, b | 0 <= a < b < |out| ensures out[a].size < out[b].size {
      assert out[a].size == gs[a].size && out[b].size == gs[b].size;
    }
  }

  /** The same sizes as keys, in the same order (the lists may differ). */
  predicate SameGroupKeys(a: seq<SizeGroup>, b: seq<SizeGroup>) {
    |a| == |b| && forall g :: 0 <= g < |a| ==> a[g].size == b[g].size
  }

  /** Under the id invariant the labels of `function_orbit_ids` follow each orbit's `bit_id`. */
  lemma FunctionOrbitIdsById(os: seq<Orbit>, n: Counts)
    requires IdsAssigned(os, n)
    ensures |FunctionOrbitIdsOf(os)| == n.functions && FunctionOrbitIdsOf(os)[0] == 0
    ensures LabelsById(FunctionOrbitIdsOf(os), os)
  {
    FunctionOrbitIdsMeaning(os);
    var r := FunctionOrbitIdsOf(os);
    forall k, j | 0 <= k < |os| && os[k].bitId <= j < os[k].bitId + |os[k].bitCombos| && j < |r|
      ensures r[j] == os[k].id
    {
      assert os[k].bitId == 1 + LenSum(os[..k]);
    }
  }

  /** No two external terms of the same kind. */
  predicate NoDupTerms(ts: seq<string>) {
    forall a, b :: 0 <= a < b < |ts| ==> ts[a] != ts[b]
  }

  /** The loop of `function_orbit_ids` over the orbits. */
  method CollectFunctionOrbitIds(os: seq<Orbit>) returns (ids: seq<nat>)
    ensures ids == FunctionOrbitIdsOf(os)
  {
    ids := [0];
    var k := 0;
    while k < |os|
      invariant 0 <= k <= |os|
      invariant ids == FunctionOrbitIdsOf(os[..k])
    {
      assert os[..k + 1][..k] == os[..k];
      ids := ids + seq(|os[k].bitCombos|, _ => os[k].id);
      k := k + 1;
    }
    assert os[..k] == os;
  }

  // ---------------------------------------------------------------------
  // The subspace
  // ---------------------------------------------------------------------

  /** The orbit index tables of one supercell; the cache hands out this very object. */
  class IndexTables {
    const tables: seq<OrbitTable>
    constructor (t: seq<OrbitTable>)
      ensures tables == t
    {
      tables := t;
    }
  }

  /** The kind (class) of an external term, e.g. an Ewald term. */
  type TermKind = string

  /** The foreign generator of a supercell's orbit index tables (`_gen_orbit_indices`). */
  type IndexGenerator = seq<seq<int>> -> seq<OrbitTable>

  class ClusterSubspace {
    var groups: seq<SizeGroup>
    var numOrbits: nat
    var numCorrFunctions: nat
    var numClusters: nat
    var externalTerms: seq<TermKind>
    var cache: map<seq<seq<int>>, IndexTables>

    /** All orbits, sorted by size. */
    function Orbits(): seq<Orbit>
      reads this
    {
      Flatten(groups)
    }

    predicate Valid()
      reads this
    {
      KeysAscending(groups)
      && IdsAssigned(Flatten(groups), Counts(numOrbits, numCorrFunctions, numClusters))
    }

    /**
     * A subspace over the given size-keyed orbits: ids assigned, no
     * external terms, an empty cache.
     */
    constructor (gs: seq<SizeGroup>)
      requires KeysAscending(gs)
      ensures Valid()
      ensures GroupsRenumbered(groups, gs)
      ensures externalTerms == [] && cache == map[]
    {
      groups := gs;
      externalTerms := [];
      cache := map[];
      new;
      AssignOrbitIds();
    }

    /**
     * `_assign_orbit_ids`: ids are handed out from `(1, 1, 1)` over the sizes
     * in ascending order; the counters take the final triple.
     */
    method AssignOrbitIds()
      requires KeysAscending(groups)
      modifies this
      ensures Valid()
      ensures GroupsRenumbered(groups, old(groups))
      ensures externalTerms == old(externalTerms) && cache == old(cache)
    {
      var out, c := AssignGroups(groups);
      groups := out;
      numOrbits, numCorrFunctions, numClusters := c.orbits, c.functions, c.clusters;
      assert Counts(numOrbits, numCorrFunctions, numClusters) == c;
    }

    /** `__len__`: the orbit functions (with the empty one) and the external terms. */
    function Len(): (n: nat)
      reads this
      ensures n == numCorrFunctions + |externalTerms|
      ensures Valid() ==> n == 1 + LenSum(Orbits()) + |externalTerms|
    {
      numCorrFunctions + |externalTerms|
    }

    /**
     * `function_orbit_ids`: entry 0 for the empty orbit, then each orbit's
     * id once per correlation function, in the orbits' order.
     */
    method FunctionOrbitIds() returns (ids: seq<nat>)
      requires Valid()
      ensures ids == FunctionOrbitIdsOf(Orbits())
      ensures |ids| == numCorrFunctions && ids[0] == 0
      ensures LabelsById(ids, Orbits())
    {
      ids := CollectFunctionOrbitIds(Orbits());
      FunctionOrbitIdsById(Orbits(), Counts(numOrbits, numCorrFunctions, numClusters));
    }

    /**
     * `function_inds_from_cutoffs`: the function ids of the orbits selected
     * by the cutoffs, orbit after orbit; a missing size raises KeyError.
     */
    method FunctionIndsFromCutoffs(upper: Cutoff, lower: Cutoff) returns (r: Result<seq<nat>>)
      ensures OrbitsFromCutoffs(groups, upper, lower).Err? ==>
        r == Err(OrbitsFromCutoffs(groups, upper, lower).error) && r.error.KeyError?
      ensures OrbitsFromCutoffs(groups, upper, lower).Ok? ==>
        r == Ok(FunctionRanges(OrbitsFromCutoffs(groups, upper, lower).value))
    {
      var selected := OrbitsFromCutoffs(groups, upper, lower);
      if selected.Err? {
        SelectOk(groups, UpperPairs(groups, upper), lower);
        return Err(selected.error);
      }
      var os := selected.value;
      var inds: seq<nat> := [];
      var k := 0;
      while k < |os|
        invariant 0 <= k <= |os|
        invariant inds == FunctionRanges(os[..k])
      {
        assert os[..k + 1][..k] == os[..k];
        inds := inds + seq(|os[k].bitCombos|, i => os[k].bitId + i);
        k := k + 1;
      }
      assert os[..k] == os;
      r := Ok(inds);
    }

    /**
     * `add_external_term`: a second term of a kind already present raises
     * ValueError and changes nothing; otherwise the term is appended.
     */
    method AddExternalTerm(term: TermKind) returns (out: Outcome)
      modifies this
      ensures term in old(externalTerms) ==>
        out == Fail(ValueError("This ClusterSubspaces already has an " + term + ".")) && externalTerms == old(externalTerms)
      ensures term !in old(externalTerms) ==> out == Pass && externalTerms == old(externalTerms) + [term]
      ensures NoDupTerms(old(externalTerms)) ==> NoDupTerms(externalTerms)
      ensures groups == old(groups) && cache == old(cache)
      ensures numOrbits == old(numOrbits) && numCorrFunctions == old(numCorrFunctions) && numClusters == old(numClusters)
    {
      var k := 0;
      while k < |externalTerms|
        invariant 0 <= k <= |externalTerms|
        invariant term !in externalTerms[..k]
      {
        if externalTerms[k] == term {
          return Fail(ValueError("This ClusterSubspaces already has an " + term + "."));
        }
        assert externalTerms[..k + 1] == externalTerms[..k] + [externalTerms[k]];
        k := k + 1;
      }
      assert externalTerms[..k] == externalTerms;
      externalTerms := externalTerms + [term];
      out := Pass;
    }

    /**
     * `supercell_orbit_mappings`: the tables are cached under the sorted rows
     * of the matrix. A hit hands back the cached object untouched; a miss
     * generates fresh tables and stores them. Either way the key now maps
     * to the returned object.
     */
    method SupercellOrbitMappings(scm: seq<seq<int>>, gen: IndexGenerator) returns (t: IndexTables)
      modifies this
      ensures RowKeys.CacheKey(scm) in cache && cache[RowKeys.CacheKey(scm)] == t
      ensures RowKeys.CacheKey(scm) in old(cache) ==> t == old(cache)[RowKeys.CacheKey(scm)] && cache == old(cache)
      ensures RowKeys.CacheKey(scm) !in old(cache) ==>
        fresh(t) && t.tables == gen(scm) && cache == old(cache)[RowKeys.CacheKey(scm) := t]
      ensures groups == old(groups) && externalTerms == old(externalTerms)
      ensures numOrbits == old(numOrbits) && numCorrFunctions == old(numCorrFunctions) && numClusters == old(numClusters)
    {
      var key := RowKeys.CacheKey(scm);
      if key in cache {
        t := cache[key];
      } else {
        t := new IndexTables(gen(scm));
        cache := cache[key := t];
      }
    }

    /**
     * `remove_orbits`: the ids are checked first (nothing changes when a
     * check fails); then every listed orbit is dropped from its size's
     * list, ids are handed out again and the cached tables are dropped.
     */
    method RemoveOrbits(ids: seq<int>) returns (out: Outcome)
      requires KeysAscending(groups)
      modifies this
      ensures out == RemoveOrbitsCheck(ids, old(numOrbits))
      ensures out.Fail? ==> (groups == old(groups) && cache == old(cache) && numOrbits == old(numOrbits)
                             && numCorrFunctions == old(numCorrFunctions) && numClusters == old(numClusters))
      ensures out.Pass? ==> (Valid() && SameGroupKeys(groups, old(groups)) && cache == map[]
                             && Flatten(groups) == AssignAll(FilterOut(Flatten(old(groups)), ids), Counts(1, 1, 1)).0)
      ensures out.Pass? ==> GroupsRenumbered(groups, FilterGroups(old(groups), ids))
      ensures externalTerms == old(externalTerms)
    {
      out := RemoveOrbitsCheck(ids, numOrbits);
      if out.Fail? {
        return;
      }
      var gs := groups;
      FlattenFilterGroups(gs, ids);
      groups := FilterGroups(gs, ids);
      AssignOrbitIds();
      RenumberedAfterFilter(groups, gs, ids);
      cache := map[];
    }

    /**
     * `remove_orbit_bit_combos`: every orbit drops the combos whose function
     * id is listed; orbits left without combos are removed (through
     * `remove_orbits`, which also drops the cache), otherwise ids are
     * handed out again and the cache is kept.
     */
    method RemoveOrbitBitCombos(bitIds: seq<int>)
      requires Valid()
      modifies this
      ensures Valid() && SameGroupKeys(groups, old(groups))
      ensures Flatten(groups) == AssignAll(
        FilterOut(PruneAll(Flatten(old(groups)), bitIds).0, PruneAll(Flatten(old(groups)), bitIds).1), Counts(1, 1, 1)).0
      ensures PruneAll(Flatten(old(groups)), bitIds).1 != [] ==> cache == map[]
      ensures PruneAll(Flatten(old(groups)), bitIds).1 == [] ==> cache == old(cache)
      ensures PruneAll(Flatten(old(groups)), bitIds).1 == [] ==> GroupsRenumbered(groups, PrunedGroups(old(groups), bitIds))
      ensures PruneAll(Flatten(old(groups)), bitIds).1 != [] ==>
        GroupsRenumbered(groups, FilterGroups(PrunedGroups(old(groups), bitIds), PruneAll(Flatten(old(groups)), bitIds).1))
      ensures externalTerms == old(externalTerms)
    {
      if PruneAll(Flatten(groups), bitIds).1 != [] {
        PruneThenRemove(bitIds);
      } else {
        PruneThenRenumber(bitIds);
      }
    }

    /** The pruning pass when it empties some orbits: they go through `remove_orbits`. */
    method PruneThenRemove(bitIds: seq<int>)
      requires Valid() && PruneAll(Flatten(groups), bitIds).1 != []
      modifies this
      ensures Valid() && SameGroupKeys(groups, old(groups)) && cache == map[]
      ensures Flatten(groups) == AssignAll(
        FilterOut(PruneAll(Flatten(old(groups)), bitIds).0, PruneAll(Flatten(old(groups)), bitIds).1), Counts(1, 1, 1)).0
      ensures GroupsRenumbered(groups, FilterGroups(PrunedGroups(old(groups), bitIds), PruneAll(Flatten(old(groups)), bitIds).1))
      ensures externalTerms == old(externalTerms)
    {
      var os := Flatten(groups);
      var out, emptied := PruneGroups(groups, bitIds);
      groups := out;
      EmptiedIdsValid(os, bitIds, Counts(numOrbits, numCorrFunctions, numClusters));
      var res := RemoveOrbits(emptied);
    }

    /** The pruning pass when every orbit keeps a combo: ids are handed out again and the cache stays. */
    method PruneThenRenumber(bitIds: seq<int>)
      requires Valid() && PruneAll(Flatten(groups), bitIds).1 == []
      modifies this
      ensures Valid() && SameGroupKeys(groups, old(groups)) && cache == old(cache)
      ensures Flatten(groups) == AssignAll(
        FilterOut(PruneAll(Flatten(old(groups)), bitIds).0, PruneAll(Flatten(old(groups)), bitIds).1), Counts(1, 1, 1)).0
      ensures GroupsRenumbered(groups, PrunedGroups(old(groups), bitIds))
      ensures externalTerms == old(externalTerms)
    {
      var out, emptied := PruneGroups(groups, bitIds);
      groups := out;
      FilterOutNothing(Flatten(out));
      AssignOrbitIds();
    }
  }

  // ---------------------------------------------------------------------
  // occupancy_from_structure
  // ---------------------------------------------------------------------

  /** An occupancy entry: the species itself, or its index in the site's allowed species. */
  datatype Occupant<S> = Specie(specie: S) | Code(index: nat)

  /**
   * The occupant of supercell site `i`: the species of the structure site
   * mapped onto it (the first listing of `i` in the mapping), or a vacancy
   * when no site maps there. A mapped position past the structure raises
   * IndexError; a species the site does not allow raises
   * StructureMatchError.
   */
  function SiteOccupant<S(==)>(allowed: seq<seq<S>>, species: seq<S>, mapping: seq<int>, vacancy: S,
                               encode: bool, i: nat): (r: Result<Occupant<S>>)
    requires i < |allowed|
    ensures r.Ok? && !encode ==> r.value.Specie? && r.value.specie in allowed[i]
    ensures r.Ok? && encode ==> r.value.Code? && r.value.index < |allowed[i]|
  {
    var found: Result<S> :=
      if i as int in mapping then
        var j := IndexOf(mapping, i as int);
        if j < |species| then Ok(species[j]) else Err(IndexError("list index out of range"))
      else Ok(vacancy);
    if found.Err? then Err(found.error)
    else if found.value !in allowed[i] then
      Err(StructureMatchError("A site in given structure has an unrecognized species."))
    else if encode then Ok(Code(IndexOf(allowed[i], found.value)))
    else Ok(Specie(found.value))
  }

  /** The occupancy of the first `n` sites, or the first site's error. */
  function OccupancySpec<S(==)>(allowed: seq<seq<S>>, species: seq<S>, mapping: seq<int>, vacancy: S,
                                encode: bool, n: nat): (r: Result<seq<Occupant<S>>>)
    requires n <= |allowed|
    ensures r.Ok? ==> |r.value| == n
    decreases n
  {
    if n == 0 then Ok([])
    else
      var init := OccupancySpec(allowed, species, mapping, vacancy, encode, n - 1);
      if init.Err? then init
      else
        var site := SiteOccupant(allowed, species, mapping, vacancy, encode, n - 1);
        if site.Err? then Err(site.error) else Ok(init.value + [site.value])
  }

  /**
   * What the occupancy of the first `n` sites means: it is produced exactly
   * when every site's occupant is; it then holds each site's occupant, and
   * the error otherwise is that of the first failing site.
   */
  predicate OccupancyExplained<S(==)>(allowed: seq<seq<S>>, species: seq<S>, mapping: seq<int>, vacancy: S,
                                      encode: bool, n: nat)
    requires n <= |allowed|
  {
    var r := OccupancySpec(allowed, species, mapping, vacancy, encode, n);
    (r.Ok? <==> forall i :: 0 <= i < n ==> SiteOccupant(allowed, species, mapping, vacancy, encode, i).Ok?)
    && (r.Ok? ==> forall i :: 0 <= i < n ==> r.value[i] == SiteOccupant(allowed, species, mapping, vacancy, encode, i).value)
    && (r.Err? ==>
          exists i :: 0 <= i < n && SiteOccupant(allowed, species, mapping, vacancy, encode, i).Err? && r.error == SiteOccupant(allowed, species, mapping, vacancy, encode, i).error
            && forall j :: 0 <= j < i ==> SiteOccupant(allowed, species, mapping, vacancy, encode, j).Ok?)
  }

  /** A failure among the first `n - 1` sites is the failure of the first `n`. */
  lemma OccupancyInitErr<S>(allowed: seq<seq<S>>, species: seq<S>, mapping: seq<int>, vacancy: S,
                            encode: bool, n: nat)
    requires 0 < n <= |allowed| && OccupancyExplained(allowed, species, mapping, vacancy, encode, n - 1)
    requires OccupancySpec(allowed, species, mapping, vacancy, encode, n - 1).Err?
    ensures OccupancyExplained(allowed, species, mapping, vacancy, encode, n)
  {
    var init := OccupancySpec(allowed, species, mapping, vacancy, encode, n - 1);
    assert OccupancySpec(allowed, species, mapping, vacancy, encode, n) == init;
    var i :| 0 <= i < n - 1 && SiteOccupant(allowed, species, mapping, vacancy, encode, i).Err? && init.error == SiteOccupant(allowed, species, mapping, vacancy, encode, i).error
      && forall j :: 0 <= j < i ==> SiteOccupant(allowed, species, mapping, vacancy, encode, j).Ok?;
  }

  /** When the first `n - 1` sites succeed and site `n - 1` fails, its error is the result. */
  lemma OccupancyLastErr<S>(allowed: seq<seq<S>>, species: seq<S>, mapping: seq<int>, vacancy: S,
                            encode: bool, n: nat)
    requires 0 < n <= |allowed| && OccupancyExplained(allowed, species, mapping, vacancy, encode, n - 1)
    requires OccupancySpec(allowed, species, mapping, vacancy, encode, n - 1).Ok? && SiteOccupant(allowed, species, mapping, vacancy, encode, n - 1).Err?
    ensures OccupancyExplained(allowed, species, mapping, vacancy, encode, n)
  {
    assert OccupancySpec(allowed, species, mapping, vacancy, encode, n) == Err(SiteOccupant(allowed, species, mapping, vacancy, encode, n - 1).error);
  }

  /** When all of the first `n` sites succeed, the occupancy lists their occupants. */
  lemma OccupancyAllOk<S>(allowed: seq<seq<S>>, species: seq<S>, mapping: seq<int>, vacancy: S,
                          encode: bool, n: nat)
    requires 0 < n <= |allowed| && OccupancyExplained(allowed, species, mapping, vacancy, encode, n - 1)
    requires OccupancySpec(allowed, species, mapping, vacancy, encode, n - 1).Ok? && SiteOccupant(allowed, species, mapping, vacancy, encode, n - 1).Ok?
    ensures OccupancyExplained(allowed, species, mapping, vacancy, encode, n)
  {
    var init := OccupancySpec(allowed, species, mapping, vacancy, encode, n - 1);
    var r := OccupancySpec(allowed, species, mapping, vacancy, encode, n);
    assert r.value == init.value + [SiteOccupant(allowed, species, mapping, vacancy, encode, n - 1).value];
    forall i | 0 <= i < n ensures r.value[i] == SiteOccupant(allowed, species, mapping, vacancy, encode, i).value {
      if i < n - 1 { assert r.value[i] == init.value[i]; }
    }
  }

  /** The occupancy of every prefix of the sites is explained by its sites' occupants. */
  lemma {:induction false} OccupancyMeaning<S>(allowed: seq<seq<S>>, species: seq<S>, mapping: seq<int>,
                                                   vacancy: S, encode: bool, n: nat)
    requires n <= |allowed|
    ensures OccupancyExplained(allowed, species, mapping, vacancy, encode, n)
    decreases n
  {
    if n > 0 {
      OccupancyMeaning(allowed, species, mapping, vacancy, encode, n - 1);
      if OccupancySpec(allowed, species, mapping, vacancy, encode, n - 1).Err? {
        OccupancyInitErr(allowed, species, mapping, vacancy, encode, n);
      } else if SiteOccupant(allowed, species, mapping, vacancy, encode, n - 1).Err? {
        OccupancyLastErr(allowed, species, mapping, vacancy, encode, n);
      } else {
        OccupancyAllOk(allowed, species, mapping, vacancy, encode, n);
      }
    }
  }

  /** Once a site fails, every longer prefix fails with the same error. */
  lemma {:induction false} OccupancyErrorStays<S>(allowed: seq<seq<S>>, species: seq<S>, mapping: seq<int>,
                                                  vacancy: S, encode: bool, a: nat, b: nat)
    requires a <= b <= |allowed| && OccupancySpec(allowed, species, mapping, vacancy, encode, a).Err?
    ensures OccupancySpec(allowed, species, mapping, vacancy, encode, b)
         == OccupancySpec(allowed, species, mapping, vacancy, encode, a)
    decreases b - a
  {
    if a < b {
      OccupancyErrorStays(allowed, species, mapping, vacancy, encode, a, b - 1);
    }
  }

  /**
   * Encoding loses nothing: an encoded occupancy decodes, through each
   * site's allowed species, to the species occupancy of the same input.
   */
  lemma EncodedDecodes<S>(allowed: seq<seq<S>>, species: seq<S>, mapping: seq<int>, vacancy: S, i: nat)
    requires i < |allowed|
    ensures SiteOccupant(allowed, species, mapping, vacancy, true, i).Ok?
        <==> SiteOccupant(allowed, species, mapping, vacancy, false, i).Ok?
    ensures SiteOccupant(allowed, species, mapping, vacancy, true, i).Ok? ==>
      allowed[i][SiteOccupant(allowed, species, mapping, vacancy, true, i).value.index]
        == SiteOccupant(allowed, species, mapping, vacancy, false, i).value.specie
  {
  }

  /**
   * `occupancy_from_structure` once the supercell's allowed species
   * (`allowed`, one list per site), the structure's species and the site
   * mapping are known: one entry per supercell site, in site order.
   */
  method OccupancyFromStructure<S(==)>(allowed: seq<seq<S>>, species: seq<S>, mapping: seq<int>,
                                       vacancy: S, encode: bool) returns (r: Result<seq<Occupant<S>>>)
    ensures r == OccupancySpec(allowed, species, mapping, vacancy, encode, |allowed|)
  {
    var occu: seq<Occupant<S>> := [];
    var i := 0;
    while i < |allowed|
      invariant 0 <= i <= |allowed|
      invariant OccupancySpec(allowed, species, mapping, vacancy, encode, i) == Ok(occu)
    {
      var site := SiteOccupant(allowed, species, mapping, vacancy, encode, i);
      if site.Err? {
        OccupancyErrorStays(allowed, species, mapping, vacancy, encode, i + 1, |allowed|);
        return Err(site.error);
      }
      occu := occu + [site.value];
      i := i + 1;
    }
    r := Ok(occu);
  }

  // ---------------------------------------------------------------------
  // get_sub_orbits: the sizes searched
  // ---------------------------------------------------------------------

  /**
   * The cluster sizes `get_sub_orbits` searches for sub orbits of an orbit
   * of cluster size `size`, as written: `range(size - 1, stop, -1)` where
   * `stop` is 0 when no level is given, the level is negative or reaches
   * below size 1, else `min_size - 1` when that is larger than
   * `size - level - 1`, else `size - level - 1`.
   */
  function SubOrbitStop(size: int, level: Option<int>, minSize: int): int {
    if level.None? || level.value < 0 || size - level.value - 1 < 0 then 0
    else if minSize > size - level.value then minSize - 1
    else size - level.value - 1
  }

  /** `range(start, stop, -1)`. */
  function CountDown(start: int, stop: int): (r: seq<int>)
    ensures forall s :: s in r <==> stop < s <= start
    ensures forall a :: 0 <= a < |r| ==> r[a] == start - a
    decreases start - stop
  {
    if start <= stop then [] else [start] + CountDown(start - 1, stop)
  }

  function SubOrbitSearchSizes(size: int, level: Option<int>, minSize: int): (r: seq<int>)
    ensures forall s :: s in r ==> s < size
    ensures level.None? ==> forall s :: s in r <==> 0 < s < size
  {
    CountDown(size - 1, SubOrbitStop(size, level, minSize))
  }

  /**
   * Without a level the search ignores the minimum size: every size from
   * `size - 1` down to 1 is searched, including those below `min_size`
   * (an orbit of triplets with minimum size 2 still searches the
   * single-site orbits).
   */
  lemma SubOrbitSearchIgnoresMinSize(size: int, minSize: int)
    requires 1 < minSize < size
    ensures 1 in SubOrbitSearchSizes(size, None, minSize) && 1 !in SubOrbitSearchSizesFixed(size, None, minSize)
  {
  }

  /**
   * The search as evidently intended: the same stop, raised to at least
   * `min_size - 1` in every case.
   */
  function SubOrbitSearchSizesFixed(size: int, level: Option<int>, minSize: int): (r: seq<int>)
  {
    var stop := SubOrbitStop(size, level, minSize);
    CountDown(size - 1, if stop < minSize - 1 then minSize - 1 else stop)
  }

  /**
   * The corrected search visits exactly the sizes below the orbit's own,
   * no smaller than the minimum size, and (given a non-negative level) no
   * more than `level` below it; sizes are visited in descending order.
   */
  lemma SubOrbitSearchSizesFixedMeaning(size: int, level: Option<int>, minSize: int)
    ensures forall s :: s in SubOrbitSearchSizesFixed(size, level, minSize) <==>
      s < size && s >= minSize && s >= 1
      && (level.Some? && level.value >= 0 && size - level.value - 1 >= 0 ==> s >= size - level.value)
    ensures forall a, b :: 0 <= a < b < |SubOrbitSearchSizesFixed(size, level, minSize)| ==>
      SubOrbitSearchSizesFixed(size, level, minSize)[a] > SubOrbitSearchSizesFixed(size, level, minSize)[b]
  {
  }
}
