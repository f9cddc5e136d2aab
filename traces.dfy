/**
 * The namespaces a sampler records values in. A `Trace` holds named
 * numpy arrays and wraps a plain number into a one-element array; a
 * `StepTrace` refuses anything but arrays, carries an inner `delta_trace`
 * and hides it from its names and items. The attribute dictionary keeps
 * Python's insertion order: assigning an existing name keeps its place.
 */
module Traces {
  import opened Errors

  /** A Python number; `bool` is a subclass of `int`. */
  datatype Scalar = IntS(i: int) | FloatS(f: real) | BoolS(b: bool)

  /** The values an attribute may be given: an array, a bare number, or anything else. */
  datatype PyValue = NdArray(items: seq<Scalar>) | Number(n: Scalar) | Other(typeName: string)

  /** An insertion-ordered dictionary from attribute names. */
  type Dict<V> = seq<(string, V)>

  predicate DistinctNames<V>(d: Dict<V>) {
    forall i, j :: 0 <= i < j < |d| ==> d[i].0 != d[j].0
  }

  /** The keys, in insertion order. */
  function Keys<V>(d: Dict<V>): (r: seq<string>)
    ensures |r| == |d| && forall i :: 0 <= i < |d| ==> r[i] == d[i].0
  {
    seq(|d|, i requires 0 <= i < |d| => d[i].0)
  }

  /** The value under a name, if the name is a key. */
  function Lookup<V>(d: Dict<V>, name: string): (r: Option<V>)
    ensures r.None? <==> name !in Keys(d)
  {
    if d == [] then None
    else if d[0].0 == name then Some(d[0].1)
    else
      assert Keys(d[1..]) == Keys(d)[1..];
      Lookup(d[1..], name)
  }

  /**
   * `__dict__[name] = v`: an existing name keeps its place, a new name goes
   * at the end, and every other entry is one of the old ones.
   */
  function Store<V>(d: Dict<V>, name: string, v: V): (r: Dict<V>)
    ensures name in Keys(d) ==> Keys(r) == Keys(d)
    ensures name !in Keys(d) ==> Keys(r) == Keys(d) + [name]
  {
    if d == [] then [(name, v)]
    else if d[0].0 == name then
      KeysCons(d);
      KeysCons([(name, v)] + d[1..]);
      assert ([(name, v)] + d[1..])[1..] == d[1..];
      [(name, v)] + d[1..]
    else
      var rest := Store(d[1..], name, v);
      KeysCons(d);
      KeysCons([d[0]] + rest);
      assert ([d[0]] + rest)[1..] == rest;
      [d[0]] + rest
  }

  lemma KeysCons<V>(d: Dict<V>)
    requires d != []
    ensures Keys(d) == [d[0].0] + Keys(d[1..])
  {
  }

  /** Every entry after a store is the new one or an old one. */
  lemma {:induction false} StoreEntries<V>(d: Dict<V>, name: string, v: V)
    ensures forall e :: e in Store(d, name, v) ==> e == (name, v) || e in d
  {
    if d != [] && d[0].0 != name {
      StoreEntries(d[1..], name, v);
      assert Store(d, name, v) == [d[0]] + Store(d[1..], name, v);
    }
  }

  /** After a store, the name holds the new value and every other name what it held. */
  lemma {:induction false} StoreLookup<V>(d: Dict<V>, name: string, v: V, n: string)
    ensures Lookup(Store(d, name, v), n) == if n == name then Some(v) else Lookup(d, n)
  {
    if d != [] && d[0].0 != name {
      StoreLookup(d[1..], name, v, n);
    }
  }

  /** Storing a new name appends it. */
  lemma {:induction false} StoreAppends<V>(d: Dict<V>, name: string, v: V)
    requires name !in Keys(d)
    ensures Store(d, name, v) == d + [(name, v)]
  {
    if d != [] {
      KeysCons(d);
      StoreAppends(d[1..], name, v);
      assert d == [d[0]] + d[1..];
    }
  }

  /** A store keeps the names distinct. */
  lemma {:induction false} StoreDistinct<V>(d: Dict<V>, name: string, v: V)
    requires DistinctNames(d)
    ensures DistinctNames(Store(d, name, v))
  {
    if d != [] && d[0].0 != name {
      StoreDistinct(d[1..], name, v);
      var r := Store(d, name, v);
      assert Keys(d) == [d[0].0] + Keys(d[1..]);
      assert d[0].0 !in Keys(d[1..]);
      assert r[1..] == Store(d[1..], name, v);
      forall j | 0 < j < |r| ensures r[0].0 != r[j].0 {
        assert r[j].0 in Keys(r[1..]) by { assert Keys(r[1..])[j - 1] == r[j].0; }
      }
    }
  }

  /** In a dictionary with distinct names, an entry's name looks up that entry's value. */
  lemma {:induction false} LookupAt<V>(d: Dict<V>, i: nat)
    requires DistinctNames(d) && i < |d|
    ensures Lookup(d, d[i].0) == Some(d[i].1)
  {
    if i > 0 {
      LookupAt(d[1..], i - 1);
    }
  }

  /** A name that is found sits at some index. */
  lemma {:induction false} LookupIndex<V>(d: Dict<V>, name: string) returns (k: nat)
    requires Lookup(d, name).Some?
    ensures k < |d| && d[k].0 == name && Some(d[k].1) == Lookup(d, name)
  {
    if d[0].0 == name {
      k := 0;
    } else {
      var j := LookupIndex(d[1..], name);
      k := j + 1;
    }
  }

  predicate AllArrays(d: Dict<PyValue>) {
    forall e :: e in d ==> e.1.NdArray?
  }

  /** `Trace.__setattr__`'s conversion: a number becomes a one-element array. */
  function TraceValue(v: PyValue): (r: Result<PyValue>)
    ensures r.Ok? <==> !v.Other?
    ensures r.Ok? ==> r.value.NdArray?
    ensures v.NdArray? ==> r == Ok(v)
    ensures v.Number? ==> r == Ok(NdArray([v.n]))
    ensures r.Err? ==> r.error.TypeError?
  {
    match v
    case NdArray(_) => Ok(v)
    case Number(x) => Ok(NdArray([x]))
    case Other(_) => Err(TypeError(ArrayOnlyMsg))
  }

  const ArrayOnlyMsg := "Trace only supports attributes of type ndarray."
  const ReservedMsg := "Attribute name 'delta_trace' is reserved."
  const DeltaTraceName := "delta_trace"

  class Trace {
    var dict: Dict<PyValue>

    /** Every attribute is an array, under its own name. */
    predicate Valid()
      reads this
    {
      DistinctNames(dict) && AllArrays(dict)
    }

    /** `Trace(**kwargs)` once the arguments are known to be arrays. */
    constructor (kwargs: Dict<PyValue>)
      requires DistinctNames(kwargs) && AllArrays(kwargs)
      ensures Valid() && dict == kwargs
    {
      dict := kwargs;
    }

    /** `names`: the attribute names in insertion order. */
    function Names(): (r: seq<string>)
      reads this
      ensures forall n :: n in r <==> Lookup(dict, n).Some?
    {
      Keys(dict)
    }

    /**
     * `__setattr__`: a number is stored as a one-element array, an array as
     * it is; anything else raises TypeError and leaves the trace as it was.
     */
    method SetAttr(name: string, v: PyValue) returns (out: Outcome)
      requires Valid()
      modifies this
      ensures Valid()
      ensures out.Pass? <==> TraceValue(v).Ok?
      ensures out.Pass? ==> dict == Store(old(dict), name, TraceValue(v).value)
      ensures out.Fail? ==> out.error.TypeError? && dict == old(dict)
    {
      var w := TraceValue(v);
      if w.Err? {
        return Fail(w.error);
      }
      StoreDistinct(dict, name, w.value);
      var r := Store(dict, name, w.value);
      StoreEntries(dict, name, w.value);
      dict := r;
      out := Pass;
    }
  }

  /** `Trace(**kwargs)`: every argument must already be an array (no wrapping here). */
  method NewTrace(kwargs: Dict<PyValue>) returns (r: Result<Trace>)
    requires DistinctNames(kwargs)
    ensures r.Ok? <==> AllArrays(kwargs)
    ensures r.Ok? ==> fresh(r.value) && r.value.Valid() && r.value.dict == kwargs
    ensures r.Err? ==> r.error == TypeError(ArrayOnlyMsg)
  {
    if !AllArrays(kwargs) {
      return Err(TypeError(ArrayOnlyMsg));
    }
    var t := new Trace(kwargs);
    r := Ok(t);
  }

  /** A slot of a step trace's dictionary: a recorded array, or the inner delta trace. */
  datatype Slot = Value(v: PyValue) | Inner

  /** The names a step trace reports: every key except `delta_trace`, in order. */
  function VisibleNames(d: Dict<Slot>): (r: seq<string>)
    ensures forall n :: n in r <==> n in Keys(d) && n != DeltaTraceName
    ensures |r| <= |d|
  {
    if d == [] then []
    else
      assert Keys(d) == [d[0].0] + Keys(d[1..]);
      var rest := VisibleNames(d[1..]);
      if d[0].0 == DeltaTraceName then rest else [d[0].0] + rest
  }

  /** The items a step trace yields: every entry except `delta_trace`, in order. */
  function VisibleItems(d: Dict<Slot>): (r: Dict<Slot>)
    ensures Keys(r) == VisibleNames(d)
    ensures forall i :: 0 <= i < |r| ==> r[i] in d
  {
    if d == [] then []
    else
      var rest := VisibleItems(d[1..]);
      assert forall i :: 0 <= i < |rest| ==> rest[i] in d;
      if d[0].0 == DeltaTraceName then rest
      else
        assert Keys([d[0]] + rest) == [d[0].0] + Keys(rest);
        [d[0]] + rest
  }

  /** The dictionary of a new step trace: the arrays given, then the inner trace. */
  function StepTraceDict(kwargs: Dict<PyValue>): (r: Dict<Slot>)
    ensures |r| == |kwargs|
    ensures forall i :: 0 <= i < |kwargs| ==> r[i] == (kwargs[i].0, Value(kwargs[i].1))
  {
    seq(|kwargs|, i requires 0 <= i < |kwargs| => (kwargs[i].0, Value(kwargs[i].1)))
  }

  /**
   * `StepTrace.__setattr__`'s checks: the reserved name raises ValueError,
   * then anything but an array raises TypeError (numbers are not wrapped).
   */
  function StepTraceCheck(name: string, v: PyValue): (r: Outcome)
    ensures r.Pass? <==> name != DeltaTraceName && v.NdArray?
    ensures name == DeltaTraceName ==> r == Fail(ValueError(ReservedMsg))
    ensures name != DeltaTraceName && !v.NdArray? ==> r == Fail(TypeError(ArrayOnlyMsg))
  {
    if name == DeltaTraceName then Fail(ValueError(ReservedMsg))
    else if !v.NdArray? then Fail(TypeError(ArrayOnlyMsg))
    else Pass
  }

  /** An entry of a step trace other than the inner trace holds an array. */
  predicate ArrayEntry(e: (string, Slot)) {
    e.0 != DeltaTraceName ==> e.1.Value? && e.1.v.NdArray?
  }

  class StepTrace {
    var dict: Dict<Slot>
    /** The inner trace of changes, stored under `delta_trace`. */
    const deltaTrace: Trace

    /**
     * `delta_trace` is a key holding the inner trace, and every other key
     * holds an array.
     */
    predicate Valid()
      reads this, deltaTrace
    {
      DistinctNames(dict) && Lookup(dict, DeltaTraceName) == Some(Inner)
      && (forall e :: e in dict ==> ArrayEntry(e))
      && deltaTrace.Valid()
    }

    /**
     * `StepTrace(**kwargs)` once the arguments are known to be arrays: the
     * inner trace is stored under `delta_trace` (replacing an argument of
     * that name in its place).
     */
    constructor (kwargs: Dict<PyValue>)
      requires DistinctNames(kwargs) && AllArrays(kwargs)
      ensures Valid() && fresh(deltaTrace) && deltaTrace.dict == []
      ensures dict == Store(StepTraceDict(kwargs), DeltaTraceName, Inner)
    {
      var d := StepTraceDict(kwargs);
      assert Keys(d) == Keys(kwargs);
      StoreDistinct(d, DeltaTraceName, Inner);
      StoreLookup(d, DeltaTraceName, Inner, DeltaTraceName);
      var r := Store(d, DeltaTraceName, Inner);
      StoreEntries(d, DeltaTraceName, Inner);
      assert forall e :: e in d ==> ArrayEntry(e);
      dict := r;
      deltaTrace := new Trace([]);
    }

    /** `names`: every attribute name but `delta_trace`. */
    function Names(): (r: seq<string>)
      reads this
      ensures DeltaTraceName !in r
      ensures forall n :: n != DeltaTraceName ==> (n in r <==> Lookup(dict, n).Some?)
    {
      VisibleNames(dict)
    }

    /**
     * `__setattr__`: stores an array under any name but `delta_trace`;
     * otherwise raises and changes nothing. The inner trace is never
     * replaced.
     */
    method SetAttr(name: string, v: PyValue) returns (out: Outcome)
      requires Valid()
      modifies this
      ensures Valid()
      ensures out == StepTraceCheck(name, v)
      ensures out.Pass? ==> dict == Store(old(dict), name, Value(v))
      ensures out.Fail? ==> dict == old(dict)
    {
      out := StepTraceCheck(name, v);
      if out.Fail? {
        return;
      }
      StoreDistinct(dict, name, Value(v));
      StoreLookup(dict, name, Value(v), DeltaTraceName);
      var r := Store(dict, name, Value(v));
      StoreEntries(dict, name, Value(v));
      dict := r;
    }
  }

  /** `StepTrace(**kwargs)`: every argument must be an array. */
  method NewStepTrace(kwargs: Dict<PyValue>) returns (r: Result<StepTrace>)
    requires DistinctNames(kwargs)
    ensures r.Ok? <==> AllArrays(kwargs)
    ensures r.Ok? ==> fresh(r.value) && r.value.Valid() && r.value.deltaTrace.dict == []
    ensures r.Ok? ==> forall n :: n != DeltaTraceName ==> (n in r.value.Names() <==> n in Keys(kwargs))
    ensures r.Err? ==> r.error == TypeError(ArrayOnlyMsg)
  {
    if !AllArrays(kwargs) {
      return Err(TypeError(ArrayOnlyMsg));
    }
    var t := new StepTrace(kwargs);
    assert Keys(StepTraceDict(kwargs)) == Keys(kwargs);
    r := Ok(t);
  }
}
