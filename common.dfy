/**
 * Shared vocabulary: the Python exceptions the modelled code raises, a
 * result type for operations that may raise, and occupancy updates
 * ("flips") that the samplers and the supercell apply in order.
 */
module Errors {
  /** The exception classes raised by the modelled code (message paraphrased). */
  datatype Error =
    | ValueError(msg: string)
    | TypeError(msg: string)
    | IndexError(msg: string)
    | KeyError(msg: string)
    | AttributeError(msg: string)
    | NameError(msg: string)
    | NotImplementedError(msg: string)
    | NotFittedError(msg: string)
    | ZeroDivisionError(msg: string)
    | StructureMatchError(msg: string)
    | RuntimeError(msg: string)

  /** A value, or the exception raised instead of returning it. */
  datatype Result<+T> = Ok(value: T) | Err(error: Error)

  /** The outcome of a call that returns nothing (`None`) or raises. */
  datatype Outcome = Pass | Fail(error: Error)

  datatype Option<+T> = None | Some(value: T)
}

module Flips {
  /** A single-site update `(site, new code)`; a step is a sequence of them. */
  type Flip = (nat, int)

  predicate SitesIn(flips: seq<Flip>, n: nat) {
    forall k :: 0 <= k < |flips| ==> flips[k].0 < n
  }

  predicate DistinctSites(flips: seq<Flip>) {
    forall j, k :: 0 <= j < k < |flips| ==> flips[j].0 != flips[k].0
  }

  /** The occupancy after writing every flip of `flips` in order (later writes win). */
  function Apply(occ: seq<int>, flips: seq<Flip>): (r: seq<int>)
    requires SitesIn(flips, |occ|)
    ensures |r| == |occ|
    decreases |flips|
  {
    if flips == [] then occ
    else
      var last := flips[|flips| - 1];
      Apply(occ, flips[..|flips| - 1])[last.0 := last.1]
  }

  /** The site a step touches, in order. */
  function Sites(flips: seq<Flip>): (r: seq<nat>)
    ensures |r| == |flips| && forall k :: 0 <= k < |flips| ==> r[k] == flips[k].0
  {
    seq(|flips|, k requires 0 <= k < |flips| => flips[k].0)
  }

  /**
   * Every site ends with the code of the LAST flip that names it, and a site
   * no flip names keeps its code.
   */
  lemma {:induction false} ApplyAt(occ: seq<int>, flips: seq<Flip>, s: nat)
    requires SitesIn(flips, |occ|) && s < |occ|
    ensures s !in Sites(flips) ==> Apply(occ, flips)[s] == occ[s]
    ensures forall k :: 0 <= k < |flips| && flips[k].0 == s
              && (forall j :: k < j < |flips| ==> flips[j].0 != s)
              ==> Apply(occ, flips)[s] == flips[k].1
    decreases |flips|
  {
    if flips != [] {
      var init := flips[..|flips| - 1];
      assert Sites(init) == Sites(flips)[..|flips| - 1];
      ApplyAt(occ, init, s);
      forall k | 0 <= k < |flips| && flips[k].0 == s
                 && (forall j :: k < j < |flips| ==> flips[j].0 != s)
        ensures Apply(occ, flips)[s] == flips[k].1
      {
        if k < |flips| - 1 {
          assert flips[|flips| - 1].0 != s;
          assert init[k] == flips[k];
        }
      }
    }
  }

  /** Writing the flips of `step` into `a`, one after the other. */
  method WriteFlips(a: array<int>, step: seq<Flip>)
    requires SitesIn(step, a.Length)
    modifies a
    ensures a[..] == Apply(old(a[..]), step)
  {
    var k := 0;
    while k < |step|
      invariant 0 <= k <= |step|
      invariant a[..] == Apply(old(a[..]), step[..k])
    {
      assert step[..k + 1][..k] == step[..k];
      a[step[k].0] := step[k].1;
      k := k + 1;
    }
    assert step[..|step|] == step;
  }
}

module Thermal {
  import opened Errors

  /** Boltzmann's constant in eV/K (`smol.constants.kB`). */
  const KB: real := 0.00008617333262

  /** `beta = 1/(kB T)`: a zero temperature raises ZeroDivisionError. */
  function BetaOf(t: real): (r: Result<real>)
    ensures r.Ok? <==> t != 0.0
    ensures r.Ok? ==> r.value * (KB * t) == 1.0
  {
    if t == 0.0 then Err(ZeroDivisionError("float division by zero")) else Ok(1.0 / (KB * t))
  }
}
