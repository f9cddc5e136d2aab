/**
 * The cluster expansion: the checks its constructor makes on the training
 * data, the fallback estimator installed when only ECIs are given, the
 * getters that hand out copies, the weight dispatch of `fit` and the
 * guard of `print_ecis`.
 *
 * The estimator's own fitting is foreign: `Fit` is given the `coef_`
 * the estimator holds once it has fitted. The cluster subspace the
 * expansion carries is not part of this model.
 */
module Expansion {
  import opened Errors

  /** An estimator: its class name and its `coef_` attribute, when it has one. */
  class Estimator {
    const name: string
    var coef: Option<seq<real>>

    constructor (name: string, coef: Option<seq<real>>)
      ensures this.name == name && this.coef == coef
    {
      this.name := name;
      this.coef := coef;
    }
  }

  /** The row count of an optional 2-D array; `None` has no `shape`. */
  function Rows(a: array2?<real>): Option<nat> {
    if a == null then None else Some(a.Length0)
  }

  /** The length of an optional 1-D array. */
  function Len(a: array?<real>): Option<nat> {
    if a == null then None else Some(a.Length)
  }

  /**
   * The checks of `ClusterExpansion.__init__`, in order: reading the shape
   * of a missing feature matrix or property vector raises AttributeError;
   * so do a feature matrix whose row count differs from the property
   * vector's length, weights of another length, and neither an estimator
   * nor ECIs.
   */
  function ConstructorCheck(featureRows: Option<nat>, propertyLen: Option<nat>, weightsLen: Option<nat>,
                            hasEstimator: bool, hasEcis: bool): (r: Outcome)
    ensures r.Pass? <==> (featureRows.Some? && propertyLen.Some? && featureRows.value == propertyLen.value
                          && (weightsLen.Some? ==> weightsLen.value == propertyLen.value)
                          && (hasEstimator || hasEcis))
    ensures r.Fail? ==> r.error.AttributeError?
  {
    if featureRows.None? || propertyLen.None? then Fail(AttributeError("'NoneType' object has no attribute 'shape'"))
    else if featureRows.value != propertyLen.value then
      Fail(AttributeError("Feature matrix does not correspond to property vector"))
    else if weightsLen.Some? && weightsLen.value != propertyLen.value then
      Fail(AttributeError("Provided weights do not match shape of property vector"))
    else if !hasEstimator && !hasEcis then
      Fail(AttributeError("No estimator or ECIs were given. One of them needs to be provided."))
    else Pass
  }

  /** The rows of a 2-D array as sequences. */
  function Matrix(a: array2<real>): (r: seq<seq<real>>)
    reads a
    ensures |r| == a.Length0
    ensures forall i :: 0 <= i < a.Length0 ==> |r[i]| == a.Length1
    ensures forall i, j :: 0 <= i < a.Length0 && 0 <= j < a.Length1 ==> r[i][j] == a[i, j]
  {
    seq(a.Length0, i requires 0 <= i < a.Length0 reads a =>
      seq(a.Length1, j requires 0 <= j < a.Length1 reads a => a[i, j]))
  }

  /** The call `fit` makes on the estimator: with the weights when the expansion has any. */
  datatype FitCall =
    | Weighted(features: seq<seq<real>>, target: seq<real>, weights: seq<real>)
    | Unweighted(features: seq<seq<real>>, target: seq<real>)

  /**
   * The training data (stored as given, not copied), the estimator and the
   * ECIs of a cluster expansion.
   */
  class ClusterExpansion {
    const featureMatrix: array2<real>
    const propertyVector: array<real>
    const weights: array?<real>
    var estimator: Estimator
    var ecis: Option<seq<real>>

    /** The shapes the constructor checked. */
    predicate Valid()
      reads this
    {
      featureMatrix.Length0 == propertyVector.Length && (weights != null ==> weights.Length == propertyVector.Length)
    }

    constructor (featureMatrix: array2<real>, propertyVector: array<real>, weights: array?<real>,
                 estimator: Estimator, ecis: Option<seq<real>>)
      requires featureMatrix.Length0 == propertyVector.Length
      requires weights != null ==> weights.Length == propertyVector.Length
      ensures Valid()
      ensures this.featureMatrix == featureMatrix && this.propertyVector == propertyVector && this.weights == weights
      ensures this.estimator == estimator && this.ecis == ecis
    {
      this.featureMatrix := featureMatrix;
      this.propertyVector := propertyVector;
      this.weights := weights;
      this.estimator := estimator;
      this.ecis := ecis;
    }

    /** `feature_matrix`: a fresh copy of the stored matrix. */
    method FeatureMatrix() returns (m: array2<real>)
      ensures fresh(m) && m.Length0 == featureMatrix.Length0 && m.Length1 == featureMatrix.Length1
      ensures Matrix(m) == Matrix(featureMatrix)
    {
      m := new real[featureMatrix.Length0, featureMatrix.Length1]((i, j) reads featureMatrix =>
        if 0 <= i < featureMatrix.Length0 && 0 <= j < featureMatrix.Length1 then featureMatrix[i, j] else 0.0);
      forall i | 0 <= i < m.Length0
        ensures Matrix(m)[i] == Matrix(featureMatrix)[i]
      {
      }
    }

    /** `property_vector`: the stored array itself, not a copy. */
    function PropertyVector(): array<real>
      reads this
    {
      propertyVector
    }

    /** `weights`: `None` without weights, otherwise a fresh copy. */
    method Weights() returns (w: array?<real>)
      ensures (w == null) == (weights == null)
      ensures w != null ==> fresh(w) && w[..] == weights[..]
    {
      if weights == null {
        return null;
      }
      w := new real[weights.Length](i reads weights => if 0 <= i < weights.Length then weights[i] else 0.0);
    }

    /**
     * `fit`: the estimator is called with the copied feature matrix, the
     * property vector and, only when there are weights, the copied
     * weights; then the ECIs become the estimator's `coef_`, and stay as
     * they were (with a warning) when it has none.
     */
    method Fit(coefAfterFit: Option<seq<real>>) returns (call: FitCall)
      requires Valid()
      modifies this, estimator
      ensures Valid() && estimator == old(estimator) && estimator.coef == coefAfterFit
      ensures weights != null ==> call == Weighted(Matrix(featureMatrix), propertyVector[..], weights[..])
      ensures weights == null ==> call == Unweighted(Matrix(featureMatrix), propertyVector[..])
      ensures ecis == if coefAfterFit.Some? then coefAfterFit else old(ecis)
    {
      var a := FeatureMatrix();
      var y := PropertyVector();
      var w := Weights();
      if w != null {
        var w2 := Weights();
        call := Weighted(Matrix(a), y[..], w2[..]);
      } else {
        call := Unweighted(Matrix(a), y[..]);
      }
      estimator.coef := coefAfterFit;
      if estimator.coef.Some? {
        ecis := estimator.coef;
      }
    }

    /** The guard of `print_ecis`: without ECIs it raises NotFittedError; the table it prints is not modelled. */
    method PrintEcis() returns (out: Outcome)
      ensures out.Fail? <==> ecis.None?
      ensures out.Fail? ==> out.error.NotFittedError?
    {
      if ecis.None? {
        return Fail(NotFittedError("This ClusterExpansion has no ECIs available."));
      }
      out := Pass;
    }
  }

  /**
   * `ClusterExpansion(...)`: after the checks, the data are stored as
   * given; without an estimator a `BaseEstimator` is installed whose
   * `coef_` is the ECIs.
   */
  method NewClusterExpansion(featureMatrix: array2?<real>, propertyVector: array?<real>, weights: array?<real>,
                             estimator: Estimator?, ecis: Option<seq<real>>)
    returns (r: Result<ClusterExpansion>)
    ensures var check := ConstructorCheck(Rows(featureMatrix), Len(propertyVector), Len(weights), estimator != null, ecis.Some?);
      && (r.Ok? <==> check.Pass?)
      && (r.Err? ==> r.error == check.error)
    ensures r.Ok? ==> (fresh(r.value) && r.value.Valid() && r.value.ecis == ecis
      && r.value.featureMatrix == featureMatrix && r.value.propertyVector == propertyVector && r.value.weights == weights)
    ensures r.Ok? && estimator != null ==> r.value.estimator == estimator
    ensures r.Ok? && estimator == null ==> (fresh(r.value.estimator)
      && r.value.estimator.name == "BaseEstimator" && r.value.estimator.coef == ecis)
  {
    var check := ConstructorCheck(Rows(featureMatrix), Len(propertyVector), Len(weights), estimator != null, ecis.Some?);
    if check.Fail? {
      return Err(check.error);
    }
    var est := estimator;
    if est == null {
      est := new Estimator("BaseEstimator", ecis);
    }
    var ce := new ClusterExpansion(featureMatrix, propertyVector, weights, est, ecis);
    r := Ok(ce);
  }

  /**
   * Writing into the copies the getters hand out leaves the expansion's
   * own feature matrix and weights as they were.
   */
  method CopiesAreIndependent(ce: ClusterExpansion)
    requires ce.featureMatrix.Length0 > 0 && ce.featureMatrix.Length1 > 0
    ensures ce.featureMatrix[0, 0] == old(ce.featureMatrix[0, 0])
    ensures ce.weights != null ==> ce.weights[..] == old(ce.weights[..])
  {
    var m := ce.FeatureMatrix();
    m[0, 0] := m[0, 0] + 1.0;
    var w := ce.Weights();
    if w != null && w.Length > 0 {
      w[0] := w[0] + 1.0;
    }
  }
}
