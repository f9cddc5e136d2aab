/**
 * The canonical ensemble: composition-preserving swaps on one sublattice,
 * the temperature and its inverse `beta`, accepting a step in place while
 * tracking the lowest energy seen, resetting and the end of an anneal.
 */
module Canonical {
  import opened Errors
  import opened Flips
  import opened Thermal

  /** `random.choice`: the draw picks an element; an empty sequence raises IndexError. */
  function Choice<T>(xs: seq<T>, draw: nat): (r: Result<T>)
    ensures r.Ok? <==> xs != []
    ensures r.Ok? ==> r.value in xs
  {
    if xs == [] then Err(IndexError("Cannot choose from an empty sequence")) else Ok(xs[draw % |xs|])
  }

  /** The sites whose code differs from that of `site1`, in order (`swap_options`). */
  function SwapOptions(occ: seq<int>, sites: seq<nat>, site1: nat): (r: seq<nat>)
    requires site1 < |occ| && forall j :: 0 <= j < |sites| ==> sites[j] < |occ|
    ensures forall i :: i in r <==> i in sites && occ[i] != occ[site1]
    decreases |sites|
  {
    if sites == [] then []
    else
      var n := |sites| - 1;
      var init := SwapOptions(occ, sites[..n], site1);
      assert forall i :: i in sites <==> i in sites[..n] || i == sites[n] by {
        assert sites == sites[..n] + [sites[n]];
      }
      if occ[sites[n]] != occ[site1] then init + [sites[n]] else init
  }

  /** Every site of every sublattice is a site of the occupancy. */
  predicate SitesWithin(sublattices: seq<seq<nat>>, n: nat) {
    forall b, j :: 0 <= b < |sublattices| && 0 <= j < |sublattices[b]| ==> sublattices[b][j] < n
  }

  /**
   * `_get_flips`: a sublattice, then a first site on it, then a partner
   * among the sites holding a different code; the step swaps the two
   * codes. With no partner the step is empty. The three draws stand for
   * the random choices.
   */
  function GetFlips(occ: seq<int>, sublattices: seq<seq<nat>>, d0: nat, d1: nat, d2: nat): (r: Result<seq<Flip>>)
    requires SitesWithin(sublattices, |occ|)
    ensures r.Ok? <==> sublattices != [] && sublattices[d0 % |sublattices|] != []
    ensures r.Ok? ==> r.value == [] || |r.value| == 2
    ensures r.Ok? ==>
      var sites := sublattices[d0 % |sublattices|];
      var site1 := sites[d1 % |sites|];
      && (r.value == [] <==> SwapOptions(occ, sites, site1) == [])
      && (r.value != [] ==> r.value[0].0 == site1 && r.value[1].0 in SwapOptions(occ, sites, site1)
                            && r.value[0].1 == occ[r.value[1].0] && r.value[1].1 == occ[site1])
  {
    match Choice(sublattices, d0)
    case Err(e) => Err(e)
    case Ok(sites) =>
      match Choice(sites, d1)
      case Err(e) => Err(e)
      case Ok(site1) =>
        var options := SwapOptions(occ, sites, site1);
        match Choice(options, d2)
        case Err(_) => Ok([])
        case Ok(site2) => Ok([(site1, occ[site2]), (site2, occ[site1])])
  }

  /** The codes on a list of sites, in order. */
  function CodesOn(occ: seq<int>, sites: seq<nat>): (r: seq<int>)
    requires forall j :: 0 <= j < |sites| ==> sites[j] < |occ|
    ensures |r| == |sites| && forall j :: 0 <= j < |sites| ==> r[j] == occ[sites[j]]
  {
    seq(|sites|, j requires 0 <= j < |sites| => occ[sites[j]])
  }

  /**
   * A swap returned by `_get_flips` exchanges two different codes on two
   * sites of the chosen sublattice: it writes only sites of that
   * sublattice and leaves the multiset of its codes unchanged.
   */
  lemma {:induction false} GetFlipsSwaps(occ: seq<int>, sublattices: seq<seq<nat>>, d0: nat, d1: nat, d2: nat)
    requires SitesWithin(sublattices, |occ|) && forall b :: 0 <= b < |sublattices| ==> NoRepeats(sublattices[b])
    requires GetFlips(occ, sublattices, d0, d1, d2).Ok? && GetFlips(occ, sublattices, d0, d1, d2).value != []
    ensures var sites := sublattices[d0 % |sublattices|];
      var step := GetFlips(occ, sublattices, d0, d1, d2).value;
      SitesIn(step, |occ|) && step[0].0 in sites && step[1].0 in sites && step[0].0 != step[1].0
      && step[0].1 != step[1].1
      && multiset(CodesOn(Apply(occ, step), sites)) == multiset(CodesOn(occ, sites))
  {
    var sites := sublattices[d0 % |sublattices|];
    assert forall j :: 0 <= j < |sites| ==> sites[j] < |occ|;
    var site1 := Choice(sites, d1).value;
    var options := SwapOptions(occ, sites, site1);
    var site2 := Choice(options, d2).value;
    var step := [(site1, occ[site2]), (site2, occ[site1])];
    assert GetFlips(occ, sublattices, d0, d1, d2).value == step;
    assert step[..1] == [(site1, occ[site2])];
    assert [(site1, occ[site2])][..0] == [];
    assert Apply(occ, step[..1]) == occ[site1 := occ[site2]];
    var after := occ[site1 := occ[site2]][site2 := occ[site1]];
    assert Apply(occ, step) == after;
    SwapKeepsCodes(occ, sites, site1, site2);
  }

  /** No site listed twice. */
  predicate NoRepeats(sites: seq<nat>) {
    forall i, j :: 0 <= i < j < |sites| ==> sites[i] != sites[j]
  }

  /** Exchanging two entries of a sequence keeps its multiset. */
  lemma SwapMultiset(c: seq<int>, i: nat, j: nat)
    requires i < |c| && j < |c|
    ensures multiset(c[i := c[j]][j := c[i]]) == multiset(c)
  {
    var c1 := c[i := c[j]];
    assert multiset(c1) == multiset(c) - multiset{c[i]} + multiset{c[j]};
    assert multiset(c1[j := c[i]]) == multiset(c1) - multiset{c1[j]} + multiset{c[i]};
  }

  /** Exchanging the codes of two sites keeps the multiset of codes on a list of distinct sites. */
  lemma SwapKeepsCodes(occ: seq<int>, sites: seq<nat>, a: nat, b: nat)
    requires a < |occ| && b < |occ| && a != b && a in sites && b in sites && NoRepeats(sites)
    requires forall j :: 0 <= j < |sites| ==> sites[j] < |occ|
    ensures multiset(CodesOn(occ[a := occ[b]][b := occ[a]], sites)) == multiset(CodesOn(occ, sites))
  {
    var ja :| 0 <= ja < |sites| && sites[ja] == a;
    var jb :| 0 <= jb < |sites| && sites[jb] == b;
    var c := CodesOn(occ, sites);
    var after := occ[a := occ[b]][b := occ[a]];
    var d := CodesOn(after, sites);
    forall j | 0 <= j < |sites| ensures d[j] == c[ja := c[jb]][jb := c[ja]][j] {
      if j != ja && j != jb {
        assert sites[j] != a && sites[j] != b;
      }
    }
    assert d == c[ja := c[jb]][jb := c[ja]];
    SwapMultiset(c, ja, jb);
  }

  /** `anneal`'s argument checks. */
  function AnnealCheck(startTemperature: real, temperature: real, coolFunction: Option<string>): (r: Outcome)
    ensures r.Pass? <==> startTemperature >= temperature && coolFunction.None?
    ensures startTemperature < temperature ==> r.Fail? && r.error.ValueError?
    ensures startTemperature >= temperature && coolFunction.Some? ==> r.Fail? && r.error.NotImplementedError?
  {
    if startTemperature < temperature then Fail(ValueError("End temperature is greater than start temperature."))
    else if coolFunction.Some? then Fail(NotImplementedError("No other cooling functions implemented yet."))
    else Pass
  }

  function Min(a: real, b: real): real {
    if a < b then a else b
  }

  class CanonicalEnsemble {
    var temperature: real
    var beta: real
    var occupancy: array<int>
    var property: real
    var minEnergy: real
    var minOccupancy: array<int>
    const initOccupancy: seq<int>
    /** The processor's `compute_property`. */
    const energyOf: seq<int> -> real

    /** The lowest energy seen is never above the current energy. */
    predicate Valid()
      reads this, occupancy, minOccupancy
    {
      occupancy.Length == |initOccupancy| && minOccupancy.Length == |initOccupancy|
      && beta * (KB * temperature) == 1.0
      && minEnergy <= property
    }

    /**
     * The ensemble once its temperature has passed the setter: the
     * occupancy and the minimum's occupancy are two copies of the initial
     * occupancy, and the lowest energy is the initial energy.
     */
    constructor (t: real, init: seq<int>, energyOf: seq<int> -> real)
      requires t != 0.0
      ensures Valid() && fresh(occupancy) && fresh(minOccupancy) && occupancy != minOccupancy
      ensures temperature == t && beta == BetaOf(t).value && occupancy[..] == init && minOccupancy[..] == init
      ensures property == energyOf(init) && minEnergy == property
      ensures initOccupancy == init && this.energyOf == energyOf
    {
      temperature := t;
      beta := BetaOf(t).value;
      initOccupancy := init;
      this.energyOf := energyOf;
      occupancy := new int[|init|](i requires 0 <= i < |init| => init[i]);
      minOccupancy := new int[|init|](i requires 0 <= i < |init| => init[i]);
      property := energyOf(init);
      minEnergy := energyOf(init);
      new;
      assert occupancy[..] == init;
    }

    /**
     * The temperature setter: the temperature is stored first, then
     * `beta = 1/(kB T)`. A zero temperature raises ZeroDivisionError with
     * the zero temperature already stored and `beta` kept, which leaves
     * the ensemble outside `Valid`.
     */
    method SetTemperature(t: real) returns (out: Outcome)
      modifies this
      ensures temperature == t
      ensures out.Pass? <==> t != 0.0
      ensures out.Pass? ==> beta == BetaOf(t).value
      ensures out.Pass? && old(Valid()) ==> Valid()
      ensures out.Fail? ==> out.error.ZeroDivisionError? && beta == old(beta) && !Valid()
      ensures occupancy == old(occupancy) && minOccupancy == old(minOccupancy)
      ensures property == old(property) && minEnergy == old(minEnergy)
    {
      temperature := t;
      var b := BetaOf(t);
      if b.Err? {
        return Fail(b.error);
      }
      beta := b.value;
      out := Pass;
    }

    /**
     * `_attempt_step` once the step, its energy change and the acceptance
     * decision are known: an accepted step adds the change to the energy
     * and writes its flips in order; a new strictly lower energy is
     * recorded with a copy of the occupancy. A rejected step changes
     * nothing.
     */
    method AttemptStep(flips: seq<Flip>, deltaE: real, accept: bool) returns (accepted: bool)
      requires Valid() && SitesIn(flips, occupancy.Length)
      modifies this, occupancy
      ensures Valid() && accepted == accept
      ensures occupancy == old(occupancy)
      ensures accept ==> property == old(property) + deltaE && occupancy[..] == Apply(old(occupancy[..]), flips)
      ensures !accept ==> property == old(property) && occupancy[..] == old(occupancy[..])
      ensures minEnergy == Min(old(minEnergy), property)
      ensures property < old(minEnergy) ==> fresh(minOccupancy) && minOccupancy[..] == occupancy[..]
      ensures property >= old(minEnergy) ==> minOccupancy == old(minOccupancy)
      ensures temperature == old(temperature) && beta == old(beta)
    {
      accepted := accept;
      if accept {
        property := property + deltaE;
        WriteFlips(occupancy, flips);
        if property < minEnergy {
          minEnergy := property;
          minOccupancy := new int[occupancy.Length];
          CopyInto(occupancy, minOccupancy);
        }
      }
    }

    /**
     * `reset`: back to the initial occupancy (in a new array) and its
     * energy, which also becomes the lowest energy; the minimum's
     * occupancy is that same array, not a copy.
     */
    method Reset()
      requires Valid()
      modifies this
      ensures Valid() && fresh(occupancy)
      ensures occupancy[..] == initOccupancy && property == energyOf(initOccupancy)
      ensures minEnergy == property && minOccupancy == occupancy
      ensures temperature == old(temperature) && beta == old(beta)
    {
      occupancy := new int[|initOccupancy|](i requires 0 <= i < |initOccupancy| => initOccupancy[i]);
      property := energyOf(initOccupancy);
      minEnergy := property;
      minOccupancy := occupancy;
    }

    /**
     * The end of `anneal` as written, after the sweep over temperatures:
     * the lowest energy and its occupancy are read, the ensemble is reset,
     * and with `set_min_occu` the occupancy and energy are set to that
     * minimum. The recorded minimum stays the initial energy.
     */
    method FinishAnneal(setMinOccu: bool) returns (minE: real, minOcc: seq<int>)
      requires Valid()
      modifies this
      ensures minE == old(minEnergy) && minOcc == old(minOccupancy[..])
      ensures minEnergy == energyOf(initOccupancy)
      ensures setMinOccu ==> property == minE && occupancy[..] == minOcc && fresh(occupancy)
      ensures !setMinOccu ==> property == energyOf(initOccupancy) && occupancy[..] == initOccupancy
      ensures temperature == old(temperature) && beta == old(beta)
    {
      minE := minEnergy;
      minOcc := minOccupancy[..];
      Reset();
      if setMinOccu {
        occupancy := new int[|minOcc|](i requires 0 <= i < |minOcc| => minOcc[i]);
        property := minE;
      }
    }

    /**
     * The end of `anneal` as evidently intended: the restored minimum is
     * also recorded as the minimum, so the lowest energy stays at or below
     * the current one.
     */
    method FinishAnnealFixed(setMinOccu: bool) returns (minE: real, minOcc: seq<int>)
      requires Valid()
      modifies this
      ensures Valid()
      ensures minE == old(minEnergy) && minOcc == old(minOccupancy[..])
      ensures setMinOccu ==> (property == minE && occupancy[..] == minOcc && minEnergy == minE
                              && minOccupancy[..] == minOcc && minOccupancy != occupancy)
      ensures !setMinOccu ==> property == energyOf(initOccupancy) && occupancy[..] == initOccupancy
      ensures temperature == old(temperature) && beta == old(beta)
    {
      minE := minEnergy;
      minOcc := minOccupancy[..];
      Reset();
      if setMinOccu {
        occupancy := new int[|minOcc|](i requires 0 <= i < |minOcc| => minOcc[i]);
        property := minE;
        minEnergy := minE;
        minOccupancy := new int[|minOcc|](i requires 0 <= i < |minOcc| => minOcc[i]);
      }
    }
  }

  /**
   * Creating a canonical ensemble: the temperature setter runs in the
   * constructor, so a zero temperature raises ZeroDivisionError.
   */
  method NewCanonical(t: real, init: seq<int>, energyOf: seq<int> -> real) returns (r: Result<CanonicalEnsemble>)
    ensures r.Ok? <==> t != 0.0
    ensures r.Err? ==> r.error == BetaOf(t).error
    ensures r.Ok? ==> fresh(r.value) && r.value.Valid() && r.value.temperature == t && r.value.beta == BetaOf(t).value
    ensures r.Ok? ==> r.value.occupancy[..] == init && r.value.minOccupancy[..] == init && r.value.occupancy != r.value.minOccupancy
    ensures r.Ok? ==> r.value.property == energyOf(init) && r.value.minEnergy == r.value.property
  {
    var b := BetaOf(t);
    if b.Err? {
      return Err(b.error);
    }
    var e := new CanonicalEnsemble(t, init, energyOf);
    r := Ok(e);
  }

  /** Copy one array into another of the same length. */
  method CopyInto(src: array<int>, dst: array<int>)
    requires src.Length == dst.Length && src != dst
    modifies dst
    ensures dst[..] == src[..]
  {
    var i := 0;
    while i < src.Length
      invariant 0 <= i <= src.Length
      invariant dst[..i] == src[..i]
    {
      dst[i] := src[i];
      i := i + 1;
    }
  }

  /**
   * `anneal` without the sweep (which runs the sampler): the checks, then
   * the restore of the minimum found, with the minimum recorded as well so
   * that the ensemble stays valid.
   */
  method Anneal(e: CanonicalEnsemble, startTemperature: real, coolFunction: Option<string>, setMinOccu: bool)
    returns (r: Result<(real, seq<int>)>)
    requires e.Valid()
    modifies e
    ensures e.Valid()
    ensures r.Err? <==> AnnealCheck(startTemperature, old(e.temperature), coolFunction).Fail?
    ensures r.Err? ==> (r.error == AnnealCheck(startTemperature, old(e.temperature), coolFunction).error
                        && e.property == old(e.property) && e.minEnergy == old(e.minEnergy) && e.occupancy == old(e.occupancy))
    ensures r.Ok? ==> r.value.0 == old(e.minEnergy) && r.value.1 == old(e.minOccupancy[..])
    ensures r.Ok? && setMinOccu ==> e.property == old(e.minEnergy) && e.occupancy[..] == old(e.minOccupancy[..])
  {
    var check := AnnealCheck(startTemperature, e.temperature, coolFunction);
    if check.Fail? {
      return Err(check.error);
    }
    var minE, minOcc := e.FinishAnnealFixed(setMinOccu);
    r := Ok((minE, minOcc));
  }

  /**
   * After an anneal that found an energy below the initial one, the
   * recorded minimum is above the restored current energy.
   */
  method AnnealLosesMinimum(e: CanonicalEnsemble) returns (minE: real, minOcc: seq<int>)
    requires e.Valid() && e.minEnergy < e.energyOf(e.initOccupancy)
    modifies e
    ensures e.minEnergy > e.property
  {
    minE, minOcc := e.FinishAnneal(true);
  }

  /**
   * After `reset` the minimum's occupancy is the current occupancy: an
   * accepted step that finds no new minimum rewrites it too.
   */
  method ResetAliasesMinimum(e: CanonicalEnsemble, flips: seq<Flip>, deltaE: real) returns (accepted: bool)
    requires e.Valid() && SitesIn(flips, e.occupancy.Length) && deltaE >= 0.0
    modifies e, e.occupancy
    ensures e.minOccupancy == e.occupancy && e.minOccupancy[..] == Apply(e.initOccupancy, flips)
    ensures e.minEnergy == e.energyOf(e.initOccupancy) && e.property == e.minEnergy + deltaE
  {
    e.Reset();
    accepted := e.AttemptStep(flips, deltaE, true);
  }
}
