/**
 * Transition kernels: the checks on the proposal and bias helpers, the
 * acceptance rules of the uniformly random and the Metropolis kernels,
 * and a single step, which records the changes in the kernel's step
 * trace and, when accepted, writes the step into the occupancy.
 *
 * The random draw enters as `logu`, the logarithm of a uniform number in
 * [0, 1); the proposed step, its feature change and its bias change are
 * inputs (they come from the usher, the ensemble and the bias).
 */
module Kernels {
  import opened Errors
  import opened Flips
  import opened Thermal
  import opened Traces

  /** `np.dot` of two vectors of the same length. */
  function Dot(a: seq<real>, b: seq<real>): real
    requires |a| == |b|
    decreases |a|
  {
    if a == [] then 0.0 else Dot(a[..|a| - 1], b[..|b| - 1]) + a[|a| - 1] * b[|b| - 1]
  }

  /** A vector of floats as array items. */
  function Floats(xs: seq<real>): (r: seq<Scalar>)
    ensures |r| == |xs| && forall i :: 0 <= i < |xs| ==> r[i] == FloatS(xs[i])
  {
    seq(|xs|, i requires 0 <= i < |xs| => FloatS(xs[i]))
  }

  /** An occupancy as array items. */
  function Ints(xs: seq<int>): (r: seq<Scalar>)
    ensures |r| == |xs| && forall i :: 0 <= i < |xs| ==> r[i] == IntS(xs[i])
  {
    seq(|xs|, i requires 0 <= i < |xs| => IntS(xs[i]))
  }

  /** The one-element boolean array a step's acceptance is recorded as. */
  function Flag(b: bool): PyValue {
    NdArray([BoolS(b)])
  }

  /**
   * The usher and bias setters: a helper whose class name is not among
   * the kernel's valid names raises ValueError.
   */
  function CheckHelper(className: string, valid: seq<string>): (r: Outcome)
    ensures r.Pass? <==> className in valid
    ensures r.Fail? ==> r.error.ValueError?
  {
    if className in valid then Pass else Fail(ValueError(className + " is not a valid helper for this kernel."))
  }

  /**
   * The bias setter of a kernel that lists no valid biases (`None`):
   * `in None` raises TypeError before any name is compared.
   */
  function CheckBias(className: string, valid: Option<seq<string>>): (r: Outcome)
    ensures valid.None? ==> r.Fail? && r.error.TypeError?
    ensures valid.Some? ==> r == CheckHelper(className, valid.value)
  {
    if valid.None? then Fail(TypeError("argument of type 'NoneType' is not iterable"))
    else CheckHelper(className, valid.value)
  }

  /**
   * The uniformly random kernel's decision: without a bias the recorded
   * flag is left as it was; with one, a non-negative bias change is
   * accepted and otherwise the change must exceed `logu`.
   */
  function UniformAccept(previous: bool, dBias: Option<real>, logu: real): (r: bool)
    ensures dBias.None? ==> r == previous
    ensures dBias.Some? && logu < 0.0 ==> (r <==> dBias.value > logu)
    ensures dBias.Some? && dBias.value >= 0.0 ==> r
  {
    match dBias
    case None => previous
    case Some(b) => Threshold(b, logu)
  }

  /** Acceptance on an exponent: a non-negative one always, otherwise when it exceeds `logu`. */
  function Threshold(e: real, logu: real): bool {
    if e >= 0.0 then true else e > logu
  }

  /** The exponent of the Metropolis criterion: `-beta * dH`, plus the bias change when there is a bias. */
  function Exponent(beta: real, dEnthalpy: real, dBias: Option<real>): real {
    -beta * dEnthalpy + (if dBias.Some? then dBias.value else 0.0)
  }

  /**
   * The Metropolis decision. Without a bias a step that does not raise the
   * enthalpy is accepted; with a bias a non-negative exponent is. Otherwise
   * the exponent must exceed `logu`. For a draw in (0, 1) and a
   * non-negative `beta` this is the criterion `exponent > logu`, and
   * without a bias it agrees with a zero bias change.
   */
  function MetropolisAccept(beta: real, dEnthalpy: real, dBias: Option<real>, logu: real): (r: bool)
    ensures logu < 0.0 && beta >= 0.0 ==> (r <==> Exponent(beta, dEnthalpy, dBias) > logu)
    ensures beta > 0.0 && dBias.None? ==> r == Threshold(Exponent(beta, dEnthalpy, Some(0.0)), logu)
    ensures beta >= 0.0 && dBias.None? && dEnthalpy <= 0.0 ==> r
  {
    if dBias.Some? then
      Threshold(Exponent(beta, dEnthalpy, dBias), logu)
    else
      if dEnthalpy <= 0.0 then
        assert beta >= 0.0 ==> -beta * dEnthalpy >= 0.0 by {
          if beta >= 0.0 { NonPositiveProduct(beta, dEnthalpy); }
        }
        true
      else
        assert beta > 0.0 ==> -beta * dEnthalpy < 0.0 by {
          if beta > 0.0 { PositiveProduct(beta, dEnthalpy); }
        }
        -beta * dEnthalpy > logu
  }

  lemma NonPositiveProduct(a: real, b: real)
    requires a >= 0.0 && b <= 0.0
    ensures -a * b >= 0.0
  {
    assert a * -b >= 0.0;
  }

  lemma PositiveProduct(a: real, b: real)
    requires a > 0.0 && b > 0.0
    ensures -a * b < 0.0
  {
    assert a * b > 0.0;
  }

  /**
   * The uniformly random kernel with a bias is the Metropolis kernel at
   * infinite temperature (`beta = 0`).
   */
  lemma UniformIsInfiniteTemperature(previous: bool, dEnthalpy: real, dBias: real, logu: real)
    ensures UniformAccept(previous, Some(dBias), logu) == MetropolisAccept(0.0, dEnthalpy, Some(dBias), logu)
  {
    assert Exponent(0.0, dEnthalpy, Some(dBias)) == dBias;
  }

  /** The changes a step records in the inner delta trace: features, enthalpy and, with a bias, the bias change. */
  function DeltaRecord(d: Dict<PyValue>, dFeatures: seq<real>, dEnthalpy: real, dBias: Option<real>): Dict<PyValue> {
    var withFeatures := Store(Store(d, "features", NdArray(Floats(dFeatures))), "enthalpy", NdArray([FloatS(dEnthalpy)]));
    if dBias.Some? then Store(withFeatures, "bias", NdArray([FloatS(dBias.value)])) else withFeatures
  }

  /** Writing the step into the occupancy when it is accepted. */
  method ApplyIfAccepted(occupancy: array<int>, step: seq<Flip>, accept: bool)
    requires SitesIn(step, occupancy.Length)
    modifies occupancy
    ensures accept ==> occupancy[..] == Apply(old(occupancy[..]), step)
    ensures !accept ==> occupancy[..] == old(occupancy[..])
  {
    if accept {
      WriteFlips(occupancy, step);
    }
  }

  /** Recording a step's changes in the inner trace of a step trace. */
  method RecordDelta(t: StepTrace, dFeatures: seq<real>, dEnthalpy: real, dBias: Option<real>)
    requires t.Valid()
    modifies t.deltaTrace
    ensures t.Valid()
    ensures t.deltaTrace.dict == DeltaRecord(old(t.deltaTrace.dict), dFeatures, dEnthalpy, dBias)
  {
    var o := t.deltaTrace.SetAttr("features", NdArray(Floats(dFeatures)));
    o := t.deltaTrace.SetAttr("enthalpy", NdArray([FloatS(dEnthalpy)]));
    if dBias.Some? {
      o := t.deltaTrace.SetAttr("bias", NdArray([FloatS(dBias.value)]));
    }
  }

  /** Recording a new flag under `accepted` in a step trace. */
  method RecordFlag(t: StepTrace, accept: bool)
    requires t.Valid()
    modifies t
    ensures t.Valid() && t.dict == Store(old(t.dict), "accepted", Value(Flag(accept)))
  {
    var o := t.SetAttr("accepted", Flag(accept));
  }

  /** Recording the occupancy after a step under `occupancy` in a step trace. */
  method RecordOccupancy(t: StepTrace, occupancy: array<int>)
    requires t.Valid()
    modifies t
    ensures t.Valid() && t.dict == Store(old(t.dict), "occupancy", Value(NdArray(Ints(occupancy[..]))))
  {
    var o := t.SetAttr("occupancy", NdArray(Ints(occupancy[..])));
  }

  /**
   * The end of a step: an accepted step is written into the occupancy and
   * the occupancy is recorded; the flag and the temperature stay as they
   * were.
   */
  method CommitStep(t: StepTrace, occupancy: array<int>, step: seq<Flip>, accepted: bool)
    requires t.Valid() && SitesIn(step, occupancy.Length)
    modifies t, occupancy
    ensures t.Valid()
    ensures accepted ==> occupancy[..] == Apply(old(occupancy[..]), step)
    ensures !accepted ==> occupancy[..] == old(occupancy[..])
    ensures t.dict == Store(old(t.dict), "occupancy", Value(NdArray(Ints(occupancy[..]))))
    ensures Lookup(t.dict, "accepted") == Lookup(old(t.dict), "accepted")
    ensures Lookup(t.dict, "temperature") == Lookup(old(t.dict), "temperature")
  {
    ApplyIfAccepted(occupancy, step, accepted);
    RecordOccupancy(t, occupancy);
    StoreLookup(old(t.dict), "occupancy", Value(NdArray(Ints(occupancy[..]))), "accepted");
    StoreLookup(old(t.dict), "occupancy", Value(NdArray(Ints(occupancy[..]))), "temperature");
  }

  /**
   * The uniformly random kernel's decision and its record: with a bias
   * change the flag is decided and stored; without one the stored flag
   * is read and left as it is.
   */
  method DecideUniform(t: StepTrace, dBias: Option<real>, logu: real) returns (accepted: bool)
    requires t.Valid() && HasFlag(t.dict)
    modifies t
    ensures t.Valid() && HasFlag(t.dict)
    ensures accepted == UniformAccept(RecordedFlag(old(t.dict)), dBias, logu) && RecordedFlag(t.dict) == accepted
    ensures dBias.Some? ==> t.dict == Store(old(t.dict), "accepted", Value(Flag(accepted)))
    ensures dBias.None? ==> t.dict == old(t.dict)
  {
    accepted := UniformAccept(RecordedFlag(t.dict), dBias, logu);
    if dBias.Some? {
      RecordFlag(t, accepted);
      StoreLookup(old(t.dict), "accepted", Value(Flag(accepted)), "accepted");
    }
  }

  /** The recorded acceptance flag, read as a truth value. */
  function RecordedFlag(d: Dict<Slot>): bool {
    Lookup(d, "accepted") == Some(Value(Flag(true)))
  }

  /** A step trace whose `accepted` entry is a one-element boolean array. */
  predicate HasFlag(d: Dict<Slot>) {
    Lookup(d, "accepted") == Some(Value(Flag(true))) || Lookup(d, "accepted") == Some(Value(Flag(false)))
  }

  /** A new kernel's step trace, `StepTrace(accepted=np.array([True]))`. */
  const FreshTraceDict: Dict<Slot> := [("accepted", Value(Flag(true))), (DeltaTraceName, Inner)]

  /** The constructor's arguments to `StepTrace`: `accepted = [True]`. */
  const FreshKwargs: Dict<PyValue> := [("accepted", Flag(true))]

  /** `StepTrace(accepted=[True])` holds the flag and then the inner trace. */
  lemma FreshTraceStored()
    ensures Store(StepTraceDict(FreshKwargs), DeltaTraceName, Inner) == FreshTraceDict
  {
    var d := StepTraceDict(FreshKwargs);
    assert d == [("accepted", Value(Flag(true)))];
    assert Store(d[1..], DeltaTraceName, Inner) == [(DeltaTraceName, Inner)];
  }

  /** The delta trace once the constructor's bias, if any, is installed. */
  function BiasSeed(bias: Option<string>): Dict<PyValue> {
    if bias.Some? then [("bias", NdArray([FloatS(0.0)]))] else []
  }

  /** The bias change a step uses: the given one when the kernel has a bias. */
  function StepBias(bias: Option<string>, dBias: real): Option<real> {
    if bias.Some? then Some(dBias) else None
  }

  /** `np.zeros(num_sites, dtype=int)`, the occupancy of the constructor's initial step. */
  function ZeroOccupancy(n: nat): (r: seq<int>)
    ensures |r| == n && forall i :: 0 <= i < n ==> r[i] == 0
  {
    seq(n, i => 0)
  }

  /** The occupancy the initial step leaves: the step on zeros when accepted. */
  function InitialOccupancy(n: nat, step: seq<Flip>, accepted: bool): seq<int>
    requires SitesIn(step, n)
  {
    if accepted then Apply(ZeroOccupancy(n), step) else ZeroOccupancy(n)
  }

  class UniformlyRandom {
    const naturalParams: seq<real>
    const trace: StepTrace
    const validUshers: seq<string>
    const validBias: seq<string>
    var usher: string
    var bias: Option<string>

    /**
     * The trace holds a flag under `accepted`; without a bias that flag is
     * still the `True` it was created with.
     */
    predicate Valid()
      reads this, trace, trace.deltaTrace
    {
      trace.Valid() && HasFlag(trace.dict) && (bias.None? ==> RecordedFlag(trace.dict))
    }

    /**
     * The kernel once its usher has passed the check, before the initial
     * step of the constructor: the step trace holds only `accepted = [True]`
     * and there is no bias.
     */
    constructor (naturalParams: seq<real>, usher: string, validUshers: seq<string>, validBias: seq<string>)
      requires usher in validUshers
      ensures Valid() && fresh(trace) && fresh(trace.deltaTrace)
      ensures this.naturalParams == naturalParams && this.usher == usher && bias.None?
      ensures this.validUshers == validUshers && this.validBias == validBias
      ensures trace.dict == FreshTraceDict && trace.deltaTrace.dict == []
    {
      this.naturalParams := naturalParams;
      this.usher := usher;
      this.validUshers := validUshers;
      this.validBias := validBias;
      bias := None;
      trace := new StepTrace(FreshKwargs);
      new;
      FreshTraceStored();
    }

    /** The usher setter: an invalid class name raises ValueError and keeps the old usher. */
    method SetUsher(className: string) returns (out: Outcome)
      modifies this
      ensures out == CheckHelper(className, validUshers)
      ensures usher == (if out.Pass? then className else old(usher)) && bias == old(bias)
    {
      out := CheckHelper(className, validUshers);
      if out.Pass? {
        usher := className;
      }
    }

    /**
     * The bias setter: an invalid class name raises ValueError; otherwise a
     * zero `bias` entry is added to the delta trace if it has none, and the
     * bias is installed.
     */
    method SetBias(className: string) returns (out: Outcome)
      requires Valid()
      modifies this, trace.deltaTrace
      ensures Valid()
      ensures out == CheckHelper(className, validBias) && usher == old(usher)
      ensures out.Fail? ==> bias == old(bias) && trace.deltaTrace.dict == old(trace.deltaTrace.dict)
      ensures out.Pass? ==> bias == Some(className) && Lookup(trace.deltaTrace.dict, "bias").Some?
      ensures out.Pass? && Lookup(old(trace.deltaTrace.dict), "bias").Some? ==> trace.deltaTrace.dict == old(trace.deltaTrace.dict)
      ensures out.Pass? && Lookup(old(trace.deltaTrace.dict), "bias").None? ==>
        trace.deltaTrace.dict == Store(old(trace.deltaTrace.dict), "bias", NdArray([FloatS(0.0)]))
      ensures trace.dict == old(trace.dict)
    {
      out := CheckHelper(className, validBias);
      if out.Fail? {
        return;
      }
      if "bias" !in trace.deltaTrace.Names() {
        var o := trace.deltaTrace.SetAttr("bias", NdArray([FloatS(0.0)]));
        StoreLookup(old(trace.deltaTrace.dict), "bias", NdArray([FloatS(0.0)]), "bias");
      }
      bias := Some(className);
    }

    /**
     * `single_step`: records the feature and enthalpy change (and the bias
     * change); with a bias decides and records acceptance; writes an
     * accepted step into the occupancy and records the occupancy. Without
     * a bias every step is accepted.
     */
    method SingleStep(occupancy: array<int>, step: seq<Flip>, dFeatures: seq<real>, dBias: real, logu: real)
      returns (accepted: bool)
      requires Valid() && |dFeatures| == |naturalParams| && SitesIn(step, occupancy.Length)
      modifies trace, trace.deltaTrace, occupancy
      ensures Valid()
      ensures var b := if bias.Some? then Some(dBias) else None;
        accepted == UniformAccept(RecordedFlag(old(trace.dict)), b, logu)
        && trace.deltaTrace.dict == DeltaRecord(old(trace.deltaTrace.dict), dFeatures, Dot(naturalParams, dFeatures), b)
      ensures bias.None? ==> accepted
      ensures accepted ==> occupancy[..] == Apply(old(occupancy[..]), step)
      ensures !accepted ==> occupancy[..] == old(occupancy[..])
      ensures bias.Some? ==> trace.dict == Store(Store(old(trace.dict), "accepted", Value(Flag(accepted))), "occupancy", Value(NdArray(Ints(occupancy[..]))))
      ensures bias.None? ==> trace.dict == Store(old(trace.dict), "occupancy", Value(NdArray(Ints(occupancy[..]))))
    {
      var dEnthalpy := Dot(naturalParams, dFeatures);
      var b: Option<real> := if bias.Some? then Some(dBias) else None;
      RecordDelta(trace, dFeatures, dEnthalpy, b);
      accepted := DecideUniform(trace, b, logu);
      CommitStep(trace, occupancy, step, accepted);
    }
  }

  class Metropolis {
    const naturalParams: seq<real>
    const trace: StepTrace
    const validUshers: seq<string>
    const validBias: seq<string>
    var usher: string
    var bias: Option<string>
    var beta: real

    /** The trace holds a flag under `accepted`. */
    predicate Valid()
      reads this, trace, trace.deltaTrace
    {
      trace.Valid() && HasFlag(trace.dict)
    }

    /** The temperature recorded in the trace. */
    function Temperature(): Option<Slot>
      reads this, trace
    {
      Lookup(trace.dict, "temperature")
    }

    /**
     * The kernel once `beta` has been computed and its usher has passed the
     * check, before the initial step of the constructor: the step trace
     * holds only `accepted = [True]`, there is no bias, and the
     * temperature is not yet recorded.
     */
    constructor (naturalParams: seq<real>, t: real, usher: string, validUshers: seq<string>, validBias: seq<string>)
      requires t != 0.0 && usher in validUshers
      ensures Valid() && fresh(trace) && fresh(trace.deltaTrace)
      ensures beta == BetaOf(t).value && trace.dict == FreshTraceDict && trace.deltaTrace.dict == []
      ensures this.naturalParams == naturalParams && this.usher == usher && bias.None?
      ensures this.validUshers == validUshers && this.validBias == validBias
    {
      this.naturalParams := naturalParams;
      this.usher := usher;
      this.validUshers := validUshers;
      this.validBias := validBias;
      bias := None;
      beta := BetaOf(t).value;
      trace := new StepTrace(FreshKwargs);
      new;
      FreshTraceStored();
    }

    /**
     * The temperature setter: the trace takes the new temperature first,
     * then `beta = 1/(kB T)`; a zero temperature raises ZeroDivisionError
     * with the trace already changed and `beta` kept.
     */
    method SetTemperature(t: real) returns (out: Outcome)
      requires Valid()
      modifies this, trace
      ensures Valid() && Temperature() == Some(Value(NdArray([FloatS(t)])))
      ensures out.Pass? <==> t != 0.0
      ensures out.Pass? ==> beta == BetaOf(t).value
      ensures out.Fail? ==> out.error.ZeroDivisionError? && beta == old(beta)
      ensures usher == old(usher) && bias == old(bias)
      ensures trace.dict == Store(old(trace.dict), "temperature", Value(NdArray([FloatS(t)])))
    {
      var o := trace.SetAttr("temperature", NdArray([FloatS(t)]));
      StoreLookup(old(trace.dict), "temperature", Value(NdArray([FloatS(t)])), "temperature");
      StoreLookup(old(trace.dict), "temperature", Value(NdArray([FloatS(t)])), "accepted");
      var b := BetaOf(t);
      if b.Err? {
        return Fail(b.error);
      }
      beta := b.value;
      out := Pass;
    }

    /** The bias setter, as for the uniformly random kernel. */
    method SetBias(className: string) returns (out: Outcome)
      requires Valid()
      modifies this, trace.deltaTrace
      ensures Valid() && beta == old(beta)
      ensures out == CheckHelper(className, validBias) && usher == old(usher)
      ensures out.Fail? ==> bias == old(bias) && trace.deltaTrace.dict == old(trace.deltaTrace.dict)
      ensures out.Pass? ==> bias == Some(className) && Lookup(trace.deltaTrace.dict, "bias").Some?
      ensures out.Pass? && Lookup(old(trace.deltaTrace.dict), "bias").Some? ==> trace.deltaTrace.dict == old(trace.deltaTrace.dict)
      ensures out.Pass? && Lookup(old(trace.deltaTrace.dict), "bias").None? ==>
        trace.deltaTrace.dict == Store(old(trace.deltaTrace.dict), "bias", NdArray([FloatS(0.0)]))
      ensures trace.dict == old(trace.dict)
    {
      out := CheckHelper(className, validBias);
      if out.Fail? {
        return;
      }
      if "bias" !in trace.deltaTrace.Names() {
        var o := trace.deltaTrace.SetAttr("bias", NdArray([FloatS(0.0)]));
        StoreLookup(old(trace.deltaTrace.dict), "bias", NdArray([FloatS(0.0)]), "bias");
      }
      bias := Some(className);
    }

    /**
     * `single_step`: records the changes, decides by the Metropolis
     * criterion (with the bias change when there is a bias), records the
     * decision, writes an accepted step into the occupancy and records the
     * occupancy.
     */
    method SingleStep(occupancy: array<int>, step: seq<Flip>, dFeatures: seq<real>, dBias: real, logu: real)
      returns (accepted: bool)
      requires Valid() && |dFeatures| == |naturalParams| && SitesIn(step, occupancy.Length)
      modifies trace, trace.deltaTrace, occupancy
      ensures Valid()
      ensures var b := if bias.Some? then Some(dBias) else None;
        var dH := Dot(naturalParams, dFeatures);
        accepted == MetropolisAccept(beta, dH, b, logu)
        && trace.deltaTrace.dict == DeltaRecord(old(trace.deltaTrace.dict), dFeatures, dH, b)
      ensures accepted ==> occupancy[..] == Apply(old(occupancy[..]), step)
      ensures !accepted ==> occupancy[..] == old(occupancy[..])
      ensures trace.dict == Store(Store(old(trace.dict), "accepted", Value(Flag(accepted))), "occupancy", Value(NdArray(Ints(occupancy[..]))))
    {
      var dEnthalpy := Dot(naturalParams, dFeatures);
      var b: Option<real> := if bias.Some? then Some(dBias) else None;
      RecordDelta(trace, dFeatures, dEnthalpy, b);
      accepted := MetropolisAccept(beta, dEnthalpy, b, logu);
      ghost var d0 := trace.dict;
      RecordFlag(trace, accepted);
      StoreLookup(d0, "accepted", Value(Flag(accepted)), "temperature");
      StoreLookup(d0, "accepted", Value(Flag(accepted)), "accepted");
      CommitStep(trace, occupancy, step, accepted);
    }
  }

  /** A trace dictionary once the initial step has stored its flag and the occupancy it left. */
  function SteppedTraceDict(accepted: bool, occupancy: seq<int>): Dict<Slot> {
    [("accepted", Value(Flag(accepted))), (DeltaTraceName, Inner), ("occupancy", Value(NdArray(Ints(occupancy))))]
  }

  /** Storing the flag and then the occupancy into a new kernel's trace. */
  lemma FreshTraceStores(accepted: bool, occupancy: seq<int>)
    ensures Store(Store(FreshTraceDict, "accepted", Value(Flag(accepted))), "occupancy", Value(NdArray(Ints(occupancy))))
      == SteppedTraceDict(accepted, occupancy)
  {
    var d := Store(FreshTraceDict, "accepted", Value(Flag(accepted)));
    assert d == [("accepted", Value(Flag(accepted))), (DeltaTraceName, Inner)];
    assert Keys(d) == ["accepted", DeltaTraceName];
    StoreAppends(d, "occupancy", Value(NdArray(Ints(occupancy))));
  }

  /**
   * The constructor's initial step of a uniformly random kernel, run on a
   * zero occupancy of its own.
   */
  method InitialUniformStep(k: UniformlyRandom, numSites: nat, step: seq<Flip>, dFeatures: seq<real>, dBias: real, logu: real)
    requires k.Valid() && k.trace.dict == FreshTraceDict && k.trace.deltaTrace.dict == BiasSeed(k.bias)
    requires |dFeatures| == |k.naturalParams| && SitesIn(step, numSites)
    modifies k.trace, k.trace.deltaTrace
    ensures k.Valid()
    ensures var accepted := UniformAccept(true, StepBias(k.bias, dBias), logu);
      && k.trace.dict == SteppedTraceDict(accepted, InitialOccupancy(numSites, step, accepted))
      && k.trace.deltaTrace.dict == DeltaRecord(BiasSeed(k.bias), dFeatures, Dot(k.naturalParams, dFeatures), StepBias(k.bias, dBias))
  {
    var occupancy := new int[numSites](i => 0);
    assert occupancy[..] == ZeroOccupancy(numSites);
    var accepted := k.SingleStep(occupancy, step, dFeatures, dBias, logu);
    assert RecordedFlag(FreshTraceDict);
    FreshTraceStores(accepted, occupancy[..]);
    if k.bias.None? {
      assert Keys(FreshTraceDict) == ["accepted", DeltaTraceName];
      StoreAppends(FreshTraceDict, "occupancy", Value(NdArray(Ints(occupancy[..]))));
    }
  }

  /**
   * The constructor's initial step of a Metropolis kernel, run on a zero
   * occupancy of its own, followed by the recording of the temperature.
   */
  method InitialMetropolisStep(k: Metropolis, t: real, numSites: nat, step: seq<Flip>, dFeatures: seq<real>, dBias: real, logu: real)
    requires k.Valid() && k.trace.dict == FreshTraceDict && k.trace.deltaTrace.dict == BiasSeed(k.bias)
    requires t != 0.0 && k.beta == BetaOf(t).value
    requires |dFeatures| == |k.naturalParams| && SitesIn(step, numSites)
    modifies k, k.trace, k.trace.deltaTrace
    ensures k.Valid() && k.beta == old(k.beta) && k.usher == old(k.usher) && k.bias == old(k.bias)
    ensures var dH := Dot(k.naturalParams, dFeatures);
      var accepted := MetropolisAccept(k.beta, dH, StepBias(k.bias, dBias), logu);
      && k.trace.dict == SteppedTraceDict(accepted, InitialOccupancy(numSites, step, accepted)) + [("temperature", Value(NdArray([FloatS(t)])))]
      && k.trace.deltaTrace.dict == DeltaRecord(BiasSeed(k.bias), dFeatures, dH, StepBias(k.bias, dBias))
  {
    var occupancy := new int[numSites](i => 0);
    assert occupancy[..] == ZeroOccupancy(numSites);
    var accepted := k.SingleStep(occupancy, step, dFeatures, dBias, logu);
    FreshTraceStores(accepted, occupancy[..]);
    ghost var d := k.trace.dict;
    assert Keys(d) == ["accepted", DeltaTraceName, "occupancy"];
    var o := k.SetTemperature(t);
    StoreAppends(d, "temperature", Value(NdArray([FloatS(t)])));
  }

  /**
   * Creating a uniformly random kernel: an unlisted usher raises
   * ValueError, then an unlisted bias raises ValueError; otherwise the
   * constructor's initial step runs on a zero occupancy with the proposed
   * step, its feature change, its bias change and the draw given, and
   * the trace holds that step's flag and the occupancy it left.
   */
  method NewUniformlyRandom(naturalParams: seq<real>, usher: string, bias: Option<string>,
                            validUshers: seq<string>, validBias: seq<string>,
                            numSites: nat, step: seq<Flip>, dFeatures: seq<real>, dBias: real, logu: real)
    returns (r: Result<UniformlyRandom>)
    requires |dFeatures| == |naturalParams| && SitesIn(step, numSites)
    ensures r.Ok? <==> usher in validUshers && (bias.Some? ==> bias.value in validBias)
    ensures usher !in validUshers ==> r == Err(CheckHelper(usher, validUshers).error)
    ensures usher in validUshers && bias.Some? && bias.value !in validBias ==> r == Err(CheckHelper(bias.value, validBias).error)
    ensures r.Ok? ==> fresh(r.value) && r.value.Valid() && r.value.usher == usher && r.value.bias == bias
    ensures r.Ok? ==>
      var accepted := UniformAccept(true, StepBias(bias, dBias), logu);
      && r.value.trace.dict == SteppedTraceDict(accepted, InitialOccupancy(numSites, step, accepted))
      && r.value.trace.deltaTrace.dict == DeltaRecord(BiasSeed(bias), dFeatures, Dot(naturalParams, dFeatures), StepBias(bias, dBias))
  {
    var c := CheckHelper(usher, validUshers);
    if c.Fail? {
      return Err(c.error);
    }
    var k := new UniformlyRandom(naturalParams, usher, validUshers, validBias);
    if bias.Some? {
      var o := k.SetBias(bias.value);
      if o.Fail? {
        return Err(o.error);
      }
      assert Store([], "bias", NdArray([FloatS(0.0)])) == BiasSeed(bias);
    }
    InitialUniformStep(k, numSites, step, dFeatures, dBias, logu);
    r := Ok(k);
  }

  /**
   * Creating a Metropolis kernel: `beta` is computed first, so a zero
   * temperature raises ZeroDivisionError; then an unlisted usher and an
   * unlisted bias raise ValueError. Otherwise the constructor's initial
   * step runs on a zero occupancy, and only then is the temperature
   * recorded, after the flag and the occupancy.
   */
  method NewMetropolis(naturalParams: seq<real>, t: real, usher: string, bias: Option<string>,
                       validUshers: seq<string>, validBias: seq<string>,
                       numSites: nat, step: seq<Flip>, dFeatures: seq<real>, dBias: real, logu: real)
    returns (r: Result<Metropolis>)
    requires |dFeatures| == |naturalParams| && SitesIn(step, numSites)
    ensures r.Ok? <==> t != 0.0 && usher in validUshers && (bias.Some? ==> bias.value in validBias)
    ensures t == 0.0 ==> r == Err(BetaOf(t).error)
    ensures t != 0.0 && usher !in validUshers ==> r == Err(CheckHelper(usher, validUshers).error)
    ensures t != 0.0 && usher in validUshers && bias.Some? && bias.value !in validBias ==>
      r == Err(CheckHelper(bias.value, validBias).error)
    ensures r.Ok? ==> fresh(r.value) && r.value.Valid() && r.value.beta == BetaOf(t).value
    ensures r.Ok? ==> r.value.usher == usher && r.value.bias == bias
    ensures r.Ok? ==>
      var dH := Dot(naturalParams, dFeatures);
      var accepted := MetropolisAccept(BetaOf(t).value, dH, StepBias(bias, dBias), logu);
      && r.value.trace.dict == SteppedTraceDict(accepted, InitialOccupancy(numSites, step, accepted))
                               + [("temperature", Value(NdArray([FloatS(t)])))]
      && r.value.trace.deltaTrace.dict == DeltaRecord(BiasSeed(bias), dFeatures, dH, StepBias(bias, dBias))
  {
    var b := BetaOf(t);
    if b.Err? {
      return Err(b.error);
    }
    var c := CheckHelper(usher, validUshers);
    if c.Fail? {
      return Err(c.error);
    }
    var k := new Metropolis(naturalParams, t, usher, validUshers, validBias);
    if bias.Some? {
      var o := k.SetBias(bias.value);
      if o.Fail? {
        return Err(o.error);
      }
      assert Store([], "bias", NdArray([FloatS(0.0)])) == BiasSeed(bias);
    }
    InitialMetropolisStep(k, t, numSites, step, dFeatures, dBias, logu);
    r := Ok(k);
  }
}
