/** The latent-source estimator: future price change as a softmax-weighted average of the
    changes that followed known patterns, weighted by exp(c * similarity). Patterns are
    normalised with the sample standard deviation (dividing by n - 1). */
module LatentSourceModel {
  import opened Optional
  import opened RealSeq
  import opened Stats

  /** Math.exp as an oracle: positive, 1 at 0 and monotone. */
  ghost predicate ExpLaws(exp: real -> real)
  {
    ExpPositive(exp) && exp(0.0) == 1.0 && forall x, y :: x <= y ==> exp(x) <= exp(y)
  }

  /** similarity: the dot product over the length of vec1, divided by that length minus one. */
  function Similarity(vec1: seq<real>, vec2: seq<real>): real
    requires |vec1| <= |vec2| && |vec1| != 1
  {
    Dot(vec1, vec2, |vec1|) / (|vec1| - 1) as real
  }

  /** Every known pattern can be compared with the current one. */
  predicate Comparable(curPattern: seq<real>, knownPatterns: seq<seq<real>>)
  {
    |curPattern| != 1 && forall i :: 0 <= i < |knownPatterns| ==> |curPattern| <= |knownPatterns[i]|
  }

  /** calculateSimilarities: exp(c * similarity) against each known pattern, in order. */
  function CalculateSimilarities(curPattern: seq<real>, knownPatterns: seq<seq<real>>, c: real,
    exp: real -> real): (r: seq<real>)
    requires Comparable(curPattern, knownPatterns)
    ensures |r| == |knownPatterns|
  {
    seq(|knownPatterns|, i requires 0 <= i < |knownPatterns| =>
      exp(c * Similarity(curPattern, knownPatterns[i])))
  }

  /** With a positive exp every similarity is positive, so their total is positive. */
  lemma SimilaritiesPositive(curPattern: seq<real>, knownPatterns: seq<seq<real>>, c: real,
    exp: real -> real)
    requires ExpPositive(exp) && Comparable(curPattern, knownPatterns)
    ensures var sims := CalculateSimilarities(curPattern, knownPatterns, c, exp);
      (forall i :: 0 <= i < |sims| ==> sims[i] > 0.0) && (sims == [] || Sum(sims) > 0.0)
  {
    var sims := CalculateSimilarities(curPattern, knownPatterns, c, exp);
    if sims != [] {
      SumPositive(sims);
    }
  }

  /** The weight of each known pattern: its similarity over the total. */
  function Weights(curPattern: seq<real>, knownPatterns: seq<seq<real>>, c: real,
    exp: real -> real): (w: seq<real>)
    requires ExpPositive(exp) && Comparable(curPattern, knownPatterns)
    ensures |w| == |knownPatterns|
  {
    SimilaritiesPositive(curPattern, knownPatterns, c, exp);
    Normalize(CalculateSimilarities(curPattern, knownPatterns, c, exp))
  }

  /** estimateFuturePrice: the weighted sum of the known price changes; 0 without known
      patterns, where the loop never runs. */
  function EstimateFuturePrice(curPattern: seq<real>, knownPatterns: seq<seq<real>>,
    knownPriceChanges: seq<real>, learntC: real, exp: real -> real): (r: real)
    requires ExpPositive(exp) && Comparable(curPattern, knownPatterns)
    requires |knownPatterns| <= |knownPriceChanges|
    ensures knownPatterns == [] ==> r == 0.0
  {
    Dot(Weights(curPattern, knownPatterns, learntC, exp), knownPriceChanges, |knownPatterns|)
  }

  /** The weights are positive and add up to 1. */
  lemma WeightsStochastic(curPattern: seq<real>, knownPatterns: seq<seq<real>>, c: real,
    exp: real -> real)
    requires ExpPositive(exp) && Comparable(curPattern, knownPatterns) && knownPatterns != []
    ensures var w := Weights(curPattern, knownPatterns, c, exp);
      (forall i :: 0 <= i < |w| ==> w[i] > 0.0) && Sum(w) == 1.0
  {
    SimilaritiesPositive(curPattern, knownPatterns, c, exp);
    NormalizeStochastic(CalculateSimilarities(curPattern, knownPatterns, c, exp));
  }

  /** The estimate is a convex combination: it lies between the smallest and the largest of the
      price changes that belong to known patterns. */
  lemma EstimateWithinChanges(curPattern: seq<real>, knownPatterns: seq<seq<real>>,
    knownPriceChanges: seq<real>, learntC: real, exp: real -> real)
    requires ExpPositive(exp) && Comparable(curPattern, knownPatterns)
    requires 0 < |knownPatterns| <= |knownPriceChanges|
    ensures var changes := knownPriceChanges[..|knownPatterns|];
      var r := EstimateFuturePrice(curPattern, knownPatterns, knownPriceChanges, learntC, exp);
      Min(changes) <= r <= Max(changes)
  {
    var n := |knownPatterns|;
    var changes := knownPriceChanges[..n];
    var w := Weights(curPattern, knownPatterns, learntC, exp);
    WeightsStochastic(curPattern, knownPatterns, learntC, exp);
    assert w[..n] == w;
    var lo, hi := Min(changes), Max(changes);
    assert forall i :: 0 <= i < n ==> changes[i] == knownPriceChanges[i];
    DotAtLeast(w, knownPriceChanges, n, lo);
    DotAtMost(w, knownPriceChanges, n, hi);
  }

  /** When every relevant change is p, the estimate is p. */
  lemma EstimateOfConstantChanges(curPattern: seq<real>, knownPatterns: seq<seq<real>>,
    knownPriceChanges: seq<real>, learntC: real, exp: real -> real, p: real)
    requires ExpPositive(exp) && Comparable(curPattern, knownPatterns)
    requires 0 < |knownPatterns| <= |knownPriceChanges|
    requires forall i :: 0 <= i < |knownPatterns| ==> knownPriceChanges[i] == p
    ensures EstimateFuturePrice(curPattern, knownPatterns, knownPriceChanges, learntC, exp) == p
  {
    var n := |knownPatterns|;
    var w := Weights(curPattern, knownPatterns, learntC, exp);
    WeightsStochastic(curPattern, knownPatterns, learntC, exp);
    assert w[..n] == w;
    DotAtLeast(w, knownPriceChanges, n, p);
    DotAtMost(w, knownPriceChanges, n, p);
  }

  /** With learntC = 0 every similarity is exp(0) = 1 and the estimate is the plain average of
      the relevant changes. */
  lemma EstimateWithoutLearning(curPattern: seq<real>, knownPatterns: seq<seq<real>>,
    knownPriceChanges: seq<real>, exp: real -> real)
    requires ExpLaws(exp) && Comparable(curPattern, knownPatterns)
    requires 0 < |knownPatterns| <= |knownPriceChanges|
    ensures EstimateFuturePrice(curPattern, knownPatterns, knownPriceChanges, 0.0, exp) ==
      Sum(knownPriceChanges[..|knownPatterns|]) / |knownPatterns| as real
  {
    var n := |knownPatterns|;
    var sims := CalculateSimilarities(curPattern, knownPatterns, 0.0, exp);
    assert forall i :: 0 <= i < n ==> sims[i] == 1.0;
    SumConstant(sims, 1.0);
    var w := Weights(curPattern, knownPatterns, 0.0, exp);
    var a := 1.0 / n as real;
    assert forall i :: 0 <= i < n ==> w[i] == a;
    DotConstant(w, knownPriceChanges, n, a);
  }

  /** With learntC > 0 a known pattern that is at least as similar gets at least as large a
      weight. */
  lemma WeightsFollowSimilarity(curPattern: seq<real>, knownPatterns: seq<seq<real>>, c: real,
    exp: real -> real, i: int, j: int)
    requires ExpLaws(exp) && Comparable(curPattern, knownPatterns) && c > 0.0
    requires 0 <= i < |knownPatterns| && 0 <= j < |knownPatterns|
    requires Similarity(curPattern, knownPatterns[j]) <= Similarity(curPattern, knownPatterns[i])
    ensures Weights(curPattern, knownPatterns, c, exp)[j] <= Weights(curPattern, knownPatterns, c, exp)[i]
  {
    var sims := CalculateSimilarities(curPattern, knownPatterns, c, exp);
    SimilaritiesPositive(curPattern, knownPatterns, c, exp);
    var si, sj := Similarity(curPattern, knownPatterns[i]), Similarity(curPattern, knownPatterns[j]);
    ExpOfScaled(exp, c, sj, si);
    assert sims[j] <= sims[i];
    assert Weights(curPattern, knownPatterns, c, exp) == Normalize(sims);
    NormalizeMonotone(sims, i, j);
  }

  lemma ExpOfScaled(exp: real -> real, c: real, x: real, y: real)
    requires ExpLaws(exp) && c > 0.0 && x <= y
    ensures exp(c * x) <= exp(c * y)
  {
    MulMonotone(c, x, y);
  }

  lemma NormalizeMonotone(p: seq<real>, i: int, j: int)
    requires 0 <= i < |p| && 0 <= j < |p| && Sum(p) > 0.0 && p[j] <= p[i]
    ensures Normalize(p)[j] <= Normalize(p)[i]
  {
    QuotientMonotone(p[j], p[i], Sum(p));
  }

  /** Similarity is symmetric on vectors of equal length. */
  lemma SimilaritySymmetric(a: seq<real>, b: seq<real>)
    requires |a| == |b| && |a| != 1
    ensures Similarity(a, b) == Similarity(b, a)
  {
    DotSymmetric(a, b, |a|);
  }

  /** mean: the stream average; the empty stream has none, and getAsDouble throws. */
  function Mean(vector: seq<real>): (r: Option<real>)
    ensures r.None? <==> vector == []
    ensures r.Some? ==> r.value * |vector| as real == Sum(vector)
  {
    if vector == [] then None
    else
      var m := Sum(vector) / |vector| as real;
      TimesQuotient(|vector| as real, Sum(vector), m);
      Some(m)
  }

  /** std: Math.sqrt of the squared deviations around mean divided by the length minus one. */
  function Std(vector: seq<real>, mean: real, sqrt: real -> real): real
    requires |vector| != 1
  {
    Spread(vector, mean, (|vector| - 1) as real, sqrt)
  }

  /** What normalizeVector divides by is defined and non-zero: at least two entries, not all
      equal to their mean. */
  predicate Normalizable(vec: seq<real>)
  {
    |vec| >= 2 && SqDev(vec, Sum(vec) / |vec| as real, |vec|) != 0.0
  }

  /** The vector normalizeVector leaves behind: every entry as (x - mean) / std. */
  function Normalized(vec: seq<real>, sqrt: real -> real): (r: seq<real>)
    requires SqrtLaws(sqrt) && Normalizable(vec)
    ensures |r| == |vec|
  {
    var mean := Sum(vec) / |vec| as real;
    SpreadIsRoot(vec, mean, (|vec| - 1) as real, sqrt);
    Centered(vec, mean, Std(vec, mean, sqrt))
  }

  /** normalizeVector: rewrites the vector in place. An empty vector has no mean: the source
      throws, and the vector is left as it was. */
  method NormalizeVector(vec: array<real>, sqrt: real -> real) returns (ok: bool)
    requires SqrtLaws(sqrt) && (vec.Length == 0 || Normalizable(vec[..]))
    modifies vec
    ensures ok <==> vec.Length > 0
    ensures ok ==> vec[..] == Normalized(old(vec[..]), sqrt)
    ensures !ok ==> vec[..] == old(vec[..])
  {
    ghost var s := vec[..];
    var m := Mean(vec[..]);
    if m.None? {
      return false;
    }
    var mean := m.value;
    var std := Std(vec[..], mean, sqrt);
    SpreadIsRoot(s, mean, (|s| - 1) as real, sqrt);
    for i := 0 to vec.Length
      invariant forall t :: 0 <= t < i ==> vec[t] == (s[t] - mean) / std
      invariant forall t :: i <= t < vec.Length ==> vec[t] == s[t]
    {
      vec[i] := (vec[i] - mean) / std;
    }
    return true;
  }

  /** A normalised vector has mean 0, dot product n - 1 with itself, so its similarity with
      itself is 1, and its sample std around 0 is 1. */
  lemma NormalizedProperties(s: seq<real>, sqrt: real -> real)
    requires SqrtLaws(sqrt) && Normalizable(s)
    ensures var c := Normalized(s, sqrt);
      Mean(c) == Some(0.0) && Dot(c, c, |c|) == (|c| - 1) as real &&
      Similarity(c, c) == 1.0 && Std(c, 0.0, sqrt) == 1.0
  {
    var n := |s| as real;
    var d := (|s| - 1) as real;
    var m := Sum(s) / n;
    CenteredDotIsDenominator(s, m, d, sqrt);
    var sd := Std(s, m, sqrt);
    var c := Centered(s, m, sd);
    CenteredSumZero(s, sd);
    QuotientOfZero(Sum(c), n);
    QuotientOfSelf(Dot(c, c, |c|), d);
    DotSelf(c, |c|);
    QuotientOfSelf(SqDev(c, 0.0, |c|), d);
    SqrtOfOne(sqrt);
  }

  /** Two normalised vectors of one length have a similarity between -1 and 1, so a vector's
      similarity with itself, which is 1, is the largest it can have. */
  lemma SimilarityInRange(x: seq<real>, y: seq<real>, sqrt: real -> real)
    requires SqrtLaws(sqrt) && Normalizable(x) && Normalizable(y) && |x| == |y|
    ensures -1.0 <= Similarity(Normalized(x, sqrt), Normalized(y, sqrt)) <= 1.0
  {
    var a, b := Normalized(x, sqrt), Normalized(y, sqrt);
    var d := (|a| - 1) as real;
    NormalizedProperties(x, sqrt);
    NormalizedProperties(y, sqrt);
    DotWithinSelf(a, b, |a|, d);
    QuotientBetween(-1.0, 1.0, Dot(a, b, |a|), d);
  }

  /** Two vectors normalised in place have the same mean and the same std around it. */
  lemma NormalizedVectorsAgree(a: seq<real>, b: seq<real>, sqrt: real -> real)
    requires SqrtLaws(sqrt) && Normalizable(a) && Normalizable(b)
    ensures var na, nb := Normalized(a, sqrt), Normalized(b, sqrt);
      Mean(na) == Mean(nb) == Some(0.0) &&
      Std(na, Mean(na).value, sqrt) == Std(nb, Mean(nb).value, sqrt) == 1.0
  {
    NormalizedProperties(a, sqrt);
    NormalizedProperties(b, sqrt);
  }
}
