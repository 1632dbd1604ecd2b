/** The normalised variant of EM clustering. The clustering itself is EMClusters' EM with the
    density exp(distanceSquared), run unchanged through the wrapped base object; the constructor
    only adds a range check. Similarity (the mean product of two vectors normalised to mean 0
    and standard deviation 1 with population statistics) is a standalone function that the
    clustering never calls. */
module NormalizedEMClusters {
  import opened RealSeq
  import opened Stats
  import EMClusters

  /** similarity: the dot product over the length of the first vector, divided by that length. */
  function Similarity(feature1: seq<real>, feature2: seq<real>): real
    requires 0 < |feature1| <= |feature2|
  {
    Dot(feature1, feature2, |feature1|) / |feature1| as real
  }

  /** mean: the summing loop divided by the length. */
  function Mean(features: seq<real>): real
    requires |features| > 0
  {
    Sum(features) / |features| as real
  }

  /** std: Math.sqrt of the squared deviations around mean, divided by the length. */
  function Std(features: seq<real>, mean: real, sqrt: real -> real): real
    requires |features| > 0
  {
    Spread(features, mean, |features| as real, sqrt)
  }

  /** What normalizeVector divides by must not be zero: the entries must not all be equal to
      their mean. */
  predicate Normalizable(features: seq<real>)
  {
    |features| > 0 && SqDev(features, Mean(features), |features|) != 0.0
  }

  /** The vector normalizeVector leaves behind: every entry as (x - mean) / std. */
  function Normalized(features: seq<real>, sqrt: real -> real): (r: seq<real>)
    requires SqrtLaws(sqrt) && Normalizable(features)
    ensures |r| == |features|
  {
    SpreadIsRoot(features, Mean(features), |features| as real, sqrt);
    Centered(features, Mean(features), Std(features, Mean(features), sqrt))
  }

  /** normalizeVector: rewrites every entry in place as (x - mean) / std and returns the very
      array it was given. */
  method NormalizeVector(features: array<real>, sqrt: real -> real) returns (r: array<real>)
    requires SqrtLaws(sqrt) && Normalizable(features[..])
    modifies features
    ensures r == features
    ensures features[..] == Normalized(old(features[..]), sqrt)
  {
    ghost var s := features[..];
    var mean := Mean(features[..]);
    var std := Std(features[..], mean, sqrt);
    SpreadIsRoot(s, mean, |s| as real, sqrt);
    for i := 0 to features.Length
      invariant forall t :: 0 <= t < i ==> features[t] == (s[t] - mean) / std
      invariant forall t :: i <= t < features.Length ==> features[t] == s[t]
    {
      features[i] := (features[i] - mean) / std;
    }
    return features;
  }

  /** Similarity is symmetric on vectors of equal length. */
  lemma SimilaritySymmetric(a: seq<real>, b: seq<real>)
    requires 0 < |a| == |b|
    ensures Similarity(a, b) == Similarity(b, a)
  {
    DotSymmetric(a, b, |a|);
  }

  /** std is a non-negative number whose square is the population variance. */
  lemma StdIsRootOfVariance(features: seq<real>, mean: real, sqrt: real -> real)
    requires SqrtLaws(sqrt) && |features| > 0
    ensures Std(features, mean, sqrt) >= 0.0
    ensures Std(features, mean, sqrt) * Std(features, mean, sqrt) ==
      SqDev(features, mean, |features|) / |features| as real
  {
    SpreadIsRoot(features, mean, |features| as real, sqrt);
  }

  /** A normalised vector has entry sum 0 and mean 0, its mean product with itself is 1, so its
      similarity with itself is 1, and its own std is 1. */
  lemma NormalizedProperties(s: seq<real>, sqrt: real -> real)
    requires SqrtLaws(sqrt) && Normalizable(s)
    ensures var c := Normalized(s, sqrt);
      Sum(c) == 0.0 && Mean(c) == 0.0 && Dot(c, c, |c|) == |c| as real &&
      Similarity(c, c) == 1.0 && Std(c, Mean(c), sqrt) == 1.0
  {
    var n := |s| as real;
    var m := Mean(s);
    CenteredDotIsDenominator(s, m, n, sqrt);
    var sd := Std(s, m, sqrt);
    var c := Centered(s, m, sd);
    CenteredSumZero(s, sd);
    QuotientOfZero(Sum(c), n);
    QuotientOfSelf(Dot(c, c, |c|), n);
    DotSelf(c, |c|);
    QuotientOfSelf(SqDev(c, 0.0, |c|), n);
    SqrtOfOne(sqrt);
  }

  /** Two normalised vectors of one length have a similarity between -1 and 1, so a vector's
      similarity with itself, which is 1, is the largest it can have. */
  lemma SimilarityInRange(x: seq<real>, y: seq<real>, sqrt: real -> real)
    requires SqrtLaws(sqrt) && Normalizable(x) && Normalizable(y) && |x| == |y|
    ensures -1.0 <= Similarity(Normalized(x, sqrt), Normalized(y, sqrt)) <= 1.0
  {
    var a, b := Normalized(x, sqrt), Normalized(y, sqrt);
    var n := |a| as real;
    NormalizedProperties(x, sqrt);
    NormalizedProperties(y, sqrt);
    DotWithinSelf(a, b, |a|, n);
    QuotientBetween(-1.0, 1.0, Dot(a, b, |a|), n);
  }

  /** The number of entries the constructor warns about: those outside [-1, 1]. */
  function RangeWarnings(features: seq<real>): nat
  {
    if features == [] then 0
    else
      var n := |features| - 1;
      RangeWarnings(features[..n]) + (if features[n] < -1.0 || features[n] > 1.0 then 1 else 0)
  }

  lemma {:induction false} NoWarningsIffInRange(features: seq<real>)
    ensures RangeWarnings(features) == 0 <==> forall t :: 0 <= t < |features| ==> -1.0 <= features[t] <= 1.0
  {
    if features != [] {
      var n := |features| - 1;
      NoWarningsIffInRange(features[..n]);
      assert forall t :: 0 <= t < n ==> features[..n][t] == features[t];
    }
  }

  /** The constructor's range check over the first feature: one warning per entry outside
      [-1, 1], and the feature is left as it is. */
  method CheckRange(features: array<real>) returns (warnings: nat)
    ensures warnings == RangeWarnings(features[..])
  {
    warnings := 0;
    for i := 0 to features.Length
      invariant warnings == RangeWarnings(features[..i])
    {
      assert features[..i + 1][..i] == features[..i];
      if features[i] < -1.0 || features[i] > 1.0 {
        warnings := warnings + 1;
      }
    }
    assert features[..features.Length] == features[..];
  }

  class NormalizedEMClusters {
    const em: EMClusters.EMClusters

    /** The EM constructor, then the range check, which rejects nothing and changes nothing. */
    constructor (featuresList: array<array<real>>, k: nat, exp: real -> real, rnd: int -> int)
      requires featuresList.Length >= 1 && k <= featuresList.Length && EMClusters.Draws(rnd)
      ensures fresh(em) && em.featuresList == featuresList && em.exp == exp
      ensures fresh(em.memo) && em.memo.Length0 == featuresList.Length && em.memo.Length1 == k
      ensures fresh(em.centroids) && em.centroids.Length == k
      ensures forall i :: 0 <= i < k ==>
        em.centroids[i] == featuresList[EMClusters.Forgy(featuresList.Length, rnd)[i]]
      ensures forall i :: 0 <= i < featuresList.Length ==> featuresList[i][..] == old(featuresList[i][..])
    {
      em := new EMClusters.EMClusters(featuresList, k, exp, rnd);
      var warnings := CheckRange(featuresList[0]);
    }
  }
}
