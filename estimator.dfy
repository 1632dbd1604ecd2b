/** Per-centroid estimates: for every centroid, the sum over the features of label times volume
    times the feature's membership of that centroid, min-max scaled into [0, 1]. */
module Estimator {
  import opened RealSeq
  import SimpleClusters

  /** The inner accumulation for centroid j over the first n features, in the order the loop
      adds them. */
  function ColumnSum(labels: seq<real>, volumes: seq<real>, memo: array2<real>, n: nat, j: nat): real
    reads memo
    requires n <= |labels| && n <= |volumes| && n <= memo.Length0 && j < memo.Length1
  {
    if n == 0 then 0.0
    else ColumnSum(labels, volumes, memo, n - 1, j) + labels[n - 1] * volumes[n - 1] * memo[n - 1, j]
  }

  /** Every centroid's sum before scaling. */
  function RawEstimates(labels: seq<real>, volumes: seq<real>, memo: array2<real>, n: nat): (r: seq<real>)
    reads memo
    requires n <= |labels| && n <= |volumes| && n <= memo.Length0
    ensures |r| == memo.Length1
  {
    seq(memo.Length1, j reads memo requires 0 <= j < memo.Length1 => ColumnSum(labels, volumes, memo, n, j))
  }

  /** Entry by entry sum. */
  function Plus(a: seq<real>, b: seq<real>): (r: seq<real>)
    requires |a| == |b|
    ensures |r| == |a|
  {
    seq(|a|, j requires 0 <= j < |a| => a[j] + b[j])
  }

  class Estimator {
    const estimates: array<real>

    /** Allocates one zero estimate per centroid, then accumulates and scales them. Only the
        number of features is read from featuresList; no input is written. */
    constructor (featuresList: array<array<real>>, labels: array<real>, volumes: array<real>,
      memo: array2<real>)
      requires memo.Length0 >= 1
      requires featuresList.Length <= labels.Length && featuresList.Length <= volumes.Length
      requires featuresList.Length <= memo.Length0
      ensures fresh(estimates) && estimates.Length == memo.Length1
      ensures estimates[..] == SimpleClusters.Scaled(RawEstimates(labels[..], volumes[..], memo,
        featuresList.Length))
    {
      estimates := new real[memo.Length1](_ => 0.0);
      new;
      ghost var zero := estimates[..];
      Estimate(featuresList, labels, volumes, memo);
      ghost var raw := RawEstimates(labels[..], volumes[..], memo, featuresList.Length);
      assert Plus(zero, raw) == raw;
    }

    /** estimate: adds each feature's contribution to every centroid, row by row, then rescales
        the estimates in place. */
    method Estimate(featuresList: array<array<real>>, labels: array<real>, volumes: array<real>,
      memo: array2<real>)
      requires estimates != labels && estimates != volumes && estimates.Length == memo.Length1
      requires featuresList.Length <= labels.Length && featuresList.Length <= volumes.Length
      requires featuresList.Length <= memo.Length0
      modifies estimates
      ensures estimates[..] == SimpleClusters.Scaled(Plus(old(estimates[..]),
        RawEstimates(labels[..], volumes[..], memo, featuresList.Length)))
    {
      ghost var base := estimates[..];
      ghost var L, V := labels[..], volumes[..];
      for i := 0 to featuresList.Length
        invariant forall t :: 0 <= t < estimates.Length ==>
          estimates[t] == base[t] + ColumnSum(L, V, memo, i, t)
      {
        for j := 0 to estimates.Length
          invariant forall t :: 0 <= t < j ==>
            estimates[t] == base[t] + ColumnSum(L, V, memo, i + 1, t)
          invariant forall t :: j <= t < estimates.Length ==>
            estimates[t] == base[t] + ColumnSum(L, V, memo, i, t)
        {
          assert labels[i] == L[i] && volumes[i] == V[i];
          estimates[j] := estimates[j] + labels[i] * volumes[i] * memo[i, j];
          assert estimates[j] == base[j] + ColumnSum(L, V, memo, i + 1, j);
        }
      }
      assert estimates[..] == Plus(base, RawEstimates(L, V, memo, featuresList.Length));
      SimpleClusters.Scale(estimates);
    }

    /** getEstimates: the field itself, not a copy. */
    function GetEstimates(): (r: array<real>)
      ensures r == estimates
    {
      estimates
    }
  }

  /** After scaling every estimate lies in [0, 1]; the centroids with the largest raw sum get
      exactly 1 and those with the smallest get 0, unless all sums are equal, when every estimate
      is 0; and the order of the raw sums is kept. */
  lemma EstimatesProperties(raw: seq<real>)
    ensures var e := SimpleClusters.Scaled(raw);
      (forall j :: 0 <= j < |e| ==> 0.0 <= e[j] <= 1.0) &&
      (forall a, b :: 0 <= a < |e| && 0 <= b < |e| && raw[a] <= raw[b] ==> e[a] <= e[b]) &&
      (raw != [] && Min(raw) == Max(raw) ==> forall j :: 0 <= j < |e| ==> e[j] == 0.0) &&
      (raw != [] && Min(raw) != Max(raw) ==>
        forall j :: 0 <= j < |e| ==> (raw[j] == Max(raw) ==> e[j] == 1.0) && (raw[j] == Min(raw) ==> e[j] == 0.0))
  {
    var e := SimpleClusters.Scaled(raw);
    SimpleClusters.ScaledInUnitRange(raw);
    forall a, b | 0 <= a < |e| && 0 <= b < |e| && raw[a] <= raw[b]
      ensures e[a] <= e[b]
    {
      SimpleClusters.ScaledMonotone(raw, a, b);
    }
    if raw != [] && Min(raw) == Max(raw) {
      SimpleClusters.ScaledConstant(raw, Min(raw));
    }
    if raw != [] && Min(raw) != Max(raw) {
      forall j | 0 <= j < |e|
        ensures (raw[j] == Max(raw) ==> e[j] == 1.0) && (raw[j] == Min(raw) ==> e[j] == 0.0)
      {
        if raw[j] == Max(raw) {
          QuotientOfSelf(raw[j] - Min(raw), Max(raw) - Min(raw));
        }
        if raw[j] == Min(raw) {
          QuotientOfZero(raw[j] - Min(raw), Max(raw) - Min(raw));
        }
      }
    }
  }
}
