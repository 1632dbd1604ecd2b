/** Expectation-maximisation clustering of feature vectors: Forgy initialisation, the soft
    assign step that fills the memo with normalised densities, and the weighted-mean update of
    the centroids. The centroids start out as the feature rows themselves. */
module EMClusters {
  import opened RealSeq

  /** How far a memo entry may move and still count as unchanged. */
  const ALLOWED_ERROR: real := 0.00000001
  const INT_MAX: int := 2147483647
  const INT_MIN: int := -2147483648

  /** Java's narrowing of a double to an int: truncation toward zero, saturating at the bounds. */
  function JavaIntCast(x: real): (r: int)
    ensures INT_MIN <= r <= INT_MAX
    ensures 0.0 <= x ==> 0 <= r && r as real <= x
    ensures 0.0 <= x < INT_MAX as real ==> r == x.Floor
  {
    if x >= INT_MAX as real then INT_MAX
    else if x <= INT_MIN as real then INT_MIN
    else if x >= 0.0 then x.Floor
    else -((-x).Floor)
  }

  function Sq(x: real): (r: real)
    ensures r >= 0.0
  {
    SquareNonNegative(x);
    x * x
  }

  lemma SquareNonNegative(x: real)
    ensures x * x >= 0.0
  {
    if x < 0.0 {
      assert x * x == (-x) * (-x);
    }
  }

  /** distanceSquared's int accumulator after the first n coordinates; every `sum += d` is
      `sum = (int) (sum + d)`. */
  function DistSqUpTo(a: seq<real>, b: seq<real>, n: nat): int
    requires n <= |a| <= |b|
  {
    if n == 0 then 0 else JavaIntCast(DistSqUpTo(a, b, n - 1) as real + Sq(a[n - 1] - b[n - 1]))
  }

  function DistSq(a: seq<real>, b: seq<real>): int
    requires |a| <= |b|
  {
    DistSqUpTo(a, b, |a|)
  }

  /** The sum of the floors of the squared coordinate differences. */
  function FloorSum(a: seq<real>, b: seq<real>, n: nat): int
    requires n <= |a| <= |b|
  {
    if n == 0 then 0 else FloorSum(a, b, n - 1) + Sq(a[n - 1] - b[n - 1]).Floor
  }

  lemma FloorShift(n: int, d: real)
    ensures (n as real + d).Floor == n + d.Floor
  {
  }

  lemma {:induction false} FloorSumNonNegative(a: seq<real>, b: seq<real>, n: nat)
    requires n <= |a| <= |b|
    ensures FloorSum(a, b, n) >= 0
  {
    if n > 0 {
      FloorSumNonNegative(a, b, n - 1);
      var d := Sq(a[n - 1] - b[n - 1]);
      assert d.Floor >= 0;
    }
  }

  /** The int accumulator adds the floor of every squared difference and sticks at INT_MAX once
      it reaches it. */
  /** One accumulator step: adding d >= 0 to the saturated sum saturates the sum of floors. */
  lemma SaturatingStep(s: int, f: int, d: real)
    requires 0 <= f && 0.0 <= d
    requires s == if f < INT_MAX then f else INT_MAX
    ensures JavaIntCast(s as real + d) == if f + d.Floor < INT_MAX then f + d.Floor else INT_MAX
  {
    FloorShift(s, d);
    if f < INT_MAX && s as real + d >= INT_MAX as real {
      assert (s as real + d).Floor >= INT_MAX;
    }
  }

  /** The int accumulator adds the floor of every squared difference and sticks at INT_MAX once
      it reaches it. */
  lemma {:induction false} DistSqSaturates(a: seq<real>, b: seq<real>, n: nat)
    requires n <= |a| <= |b|
    ensures DistSqUpTo(a, b, n) == if FloorSum(a, b, n) < INT_MAX then FloorSum(a, b, n) else INT_MAX
  {
    if n > 0 {
      DistSqSaturates(a, b, n - 1);
      FloorSumNonNegative(a, b, n - 1);
      var x := a[n - 1] - b[n - 1];
      assert Sq(x) >= 0.0;
      SaturatingStep(DistSqUpTo(a, b, n - 1), FloorSum(a, b, n - 1), Sq(x));
    }
  }

  lemma {:induction false} FloorSumSymmetric(a: seq<real>, b: seq<real>, n: nat)
    requires n <= |a| == |b|
    ensures FloorSum(a, b, n) == FloorSum(b, a, n)
  {
    if n > 0 {
      FloorSumSymmetric(a, b, n - 1);
      assert Sq(a[n - 1] - b[n - 1]) == Sq(b[n - 1] - a[n - 1]);
    }
  }

  lemma {:induction false} FloorSumSelf(a: seq<real>, n: nat)
    requires n <= |a|
    ensures FloorSum(a, a, n) == 0
  {
    if n > 0 {
      FloorSumSelf(a, n - 1);
    }
  }

  /** distanceSquared is min(sum of floor((a[i] - b[i])^2), INT_MAX): non-negative, symmetric on
      equal lengths, and 0 for identical vectors. */
  lemma DistSqProperties(a: seq<real>, b: seq<real>)
    requires |a| <= |b|
    ensures DistSq(a, b) == if FloorSum(a, b, |a|) < INT_MAX then FloorSum(a, b, |a|) else INT_MAX
    ensures DistSq(a, b) >= 0
    ensures |a| == |b| ==> DistSq(a, b) == DistSq(b, a)
    ensures DistSq(a, a) == 0
  {
    DistSqSaturates(a, b, |a|);
    FloorSumNonNegative(a, b, |a|);
    DistSqSaturates(a, a, |a|);
    FloorSumSelf(a, |a|);
    if |a| == |b| {
      DistSqSaturates(b, a, |b|);
      FloorSumSymmetric(a, b, |a|);
    }
  }

  /** distanceSquared: the squared differences accumulated into an int. */
  method DistanceSquared(feature1: array<real>, feature2: array<real>) returns (sum: int)
    requires feature1.Length <= feature2.Length
    ensures sum == DistSq(feature1[..], feature2[..])
  {
    sum := 0;
    for i := 0 to feature1.Length
      invariant sum == DistSqUpTo(feature1[..], feature2[..], i)
    {
      assert feature1[..][i] == feature1[i] && feature2[..][i] == feature2[i];
      var d := feature1[i] - feature2[i];
      assert Sq(d) == d * d;
      sum := JavaIntCast(sum as real + d * d);
    }
  }

  // Forgy initialisation

  /** nextInt(i + 1) as an oracle: the index drawn at step i lies in [0, i]. */
  ghost predicate Draws(rnd: int -> int)
  {
    forall i :: 1 <= i ==> 0 <= rnd(i) <= i
  }

  function Iota(n: nat): (r: seq<int>)
    ensures |r| == n && forall i :: 0 <= i < n ==> r[i] == i
  {
    seq(n, i => i)
  }

  /** The index array {0, 1, 2, ...}: a zero array whose every cell becomes its left
      neighbour plus one. */
  method IdentityIndices(n: nat) returns (random: array<int>)
    ensures fresh(random)
    ensures random[..] == Iota(n)
  {
    random := new int[n](_ => 0);
    if n > 0 {
      for i := 1 to n
        invariant forall j :: 0 <= j < i ==> random[j] == j
      {
        random[i] := random[i - 1] + 1;
      }
    }
  }

  /** One Fisher-Yates step: the cell drawn and cell i trade places. */
  function Swap(s: seq<int>, index: int, i: int): seq<int>
    requires 0 <= index < |s| && 0 <= i < |s|
  {
    s[index := s[i]][i := s[index]]
  }

  /** The steps i, i - 1, ..., 1 of the shuffle. */
  function ShuffledFrom(s: seq<int>, i: int, rnd: int -> int): (r: seq<int>)
    requires Draws(rnd) && i < |s|
    ensures |r| == |s|
    decreases i
  {
    if i <= 0 then s else ShuffledFrom(Swap(s, rnd(i), i), i - 1, rnd)
  }

  function Shuffled(s: seq<int>, rnd: int -> int): seq<int>
    requires Draws(rnd)
  {
    ShuffledFrom(s, |s| - 1, rnd)
  }

  /** shuffle: Fisher-Yates from the last cell down to cell 1. */
  method Shuffle(ar: array<int>, rnd: int -> int)
    requires Draws(rnd)
    modifies ar
    ensures ar[..] == Shuffled(old(ar[..]), rnd)
  {
    var i := ar.Length - 1;
    while i > 0
      invariant -1 <= i < ar.Length
      invariant ShuffledFrom(ar[..], i, rnd) == Shuffled(old(ar[..]), rnd)
    {
      var index := rnd(i);
      var a := ar[index];
      ar[index] := ar[i];
      ar[i] := a;
      i := i - 1;
    }
  }

  lemma {:induction false} ShuffledFromPermutes(s: seq<int>, i: int, rnd: int -> int)
    requires Draws(rnd) && i < |s|
    ensures multiset(ShuffledFrom(s, i, rnd)) == multiset(s)
    decreases i
  {
    if i > 0 {
      var t := Swap(s, rnd(i), i);
      ShuffledFromPermutes(t, i - 1, rnd);
      SwapPermutes(s, rnd(i), i);
    }
  }

  lemma SwapPermutes(s: seq<int>, index: int, i: int)
    requires 0 <= index < |s| && 0 <= i < |s|
    ensures multiset(Swap(s, index, i)) == multiset(s)
  {
    var u := s[index := s[i]];
    assert multiset(u) == multiset(s) - multiset{s[index]} + multiset{s[i]};
    assert multiset(u[i := s[index]]) == multiset(u) - multiset{u[i]} + multiset{s[index]};
  }

  /** The shuffle is a permutation of its input. */
  lemma ShufflePermutes(s: seq<int>, rnd: int -> int)
    requires Draws(rnd)
    ensures multiset(Shuffled(s, rnd)) == multiset(s)
  {
    ShuffledFromPermutes(s, |s| - 1, rnd);
  }

  ghost predicate DistinctIndices(s: seq<int>, n: int)
  {
    (forall i :: 0 <= i < |s| ==> 0 <= s[i] < n) &&
    (forall i, j :: 0 <= i < j < |s| ==> s[i] != s[j])
  }

  lemma {:induction false} ShuffledFromDistinct(s: seq<int>, i: int, rnd: int -> int, n: int)
    requires Draws(rnd) && i < |s| && DistinctIndices(s, n)
    ensures DistinctIndices(ShuffledFrom(s, i, rnd), n)
    decreases i
  {
    if i > 0 {
      var t := Swap(s, rnd(i), i);
      assert DistinctIndices(t, n) by {
        forall p, q | 0 <= p < q < |t|
          ensures t[p] != t[q]
        {
          var p' := if p == rnd(i) then i else if p == i then rnd(i) else p;
          var q' := if q == rnd(i) then i else if q == i then rnd(i) else q;
          assert t[p] == s[p'] && t[q] == s[q'];
          assert p' != q';
        }
      }
      ShuffledFromDistinct(t, i - 1, rnd, n);
    }
  }

  /** The Forgy choice: the shuffled index array {0, ..., n-1}. It holds every index once, so its
      first k <= n cells name k distinct feature rows. */
  function Forgy(n: nat, rnd: int -> int): (r: seq<int>)
    requires Draws(rnd)
    ensures |r| == n && DistinctIndices(r, n)
    ensures multiset(r) == multiset(Iota(n))
  {
    ShuffledFromDistinct(Iota(n), n - 1, rnd, n);
    ShufflePermutes(Iota(n), rnd);
    Shuffled(Iota(n), rnd)
  }

  // Soft assignment

  ghost predicate Fits(f: seq<real>, cs: seq<seq<real>>)
  {
    forall j :: 0 <= j < |cs| ==> |f| <= |cs[j]|
  }

  /** probabilityDensity of a feature against every centroid: e raised to the squared distance,
      with a positive exponent. */
  function Densities(f: seq<real>, cs: seq<seq<real>>, exp: real -> real): (r: seq<real>)
    requires Fits(f, cs)
    ensures |r| == |cs|
  {
    seq(|cs|, j requires 0 <= j < |cs| => exp(DistSq(f, cs[j]) as real))
  }

  /** The memo row the soft assign step writes for feature f. */
  function SoftRow(f: seq<real>, cs: seq<seq<real>>, exp: real -> real): (r: seq<real>)
    requires Fits(f, cs) && ExpPositive(exp)
    ensures |r| == |cs|
  {
    var p := Densities(f, cs, exp);
    if p == [] then [] else SumPositive(p); Normalize(p)
  }

  /** With at least one centroid every entry of a soft row is positive and the row sums to 1. */
  lemma SoftRowStochastic(f: seq<real>, cs: seq<seq<real>>, exp: real -> real)
    requires Fits(f, cs) && ExpPositive(exp) && cs != []
    ensures forall j :: 0 <= j < |cs| ==> SoftRow(f, cs, exp)[j] > 0.0
    ensures Sum(SoftRow(f, cs, exp)) == 1.0
  {
    NormalizeStochastic(Densities(f, cs, exp));
  }

  /** The change test of the soft assign step. */
  predicate Moved(before: real, after: real)
  {
    after - before > ALLOWED_ERROR || after - before < -ALLOWED_ERROR
  }

  // Update

  /** Sum over features j of w[j] * F[j][t], accumulated from the first feature on. */
  function WeightedSum(F: seq<seq<real>>, w: seq<real>, t: nat): real
    requires |F| == |w| && forall j :: 0 <= j < |F| ==> t < |F[j]|
  {
    if F == [] then 0.0 else WeightedSum(F[..|F| - 1], w[..|w| - 1], t) + F[|F| - 1][t] * w[|w| - 1]
  }

  /** With non-negative weights of positive total the weighted mean of a column lies between its
      smallest and its largest entry. */
  lemma {:induction false} WeightedSumBounds(F: seq<seq<real>>, w: seq<real>, t: nat, lo: real, hi: real)
    requires |F| == |w| && forall j :: 0 <= j < |F| ==> t < |F[j]|
    requires forall j :: 0 <= j < |F| ==> w[j] >= 0.0 && lo <= F[j][t] <= hi
    ensures lo * Sum(w) <= WeightedSum(F, w, t) <= hi * Sum(w)
  {
    if F != [] {
      var n := |F| - 1;
      WeightedSumBounds(F[..n], w[..n], t, lo, hi);
      BoundStep(lo, hi, Sum(w[..n]), WeightedSum(F[..n], w[..n], t), w[n], F[n][t]);
    }
  }

  /** One more weighted term keeps the running bounds: the step of WeightedSumBounds, stated on
      plain variables. */
  lemma BoundStep(lo: real, hi: real, s: real, ws: real, wn: real, x: real)
    requires lo * s <= ws <= hi * s && wn >= 0.0 && lo <= x <= hi
    ensures lo * (s + wn) <= ws + x * wn <= hi * (s + wn)
  {
    MulMonotone(wn, lo, x);
    MulMonotone(wn, x, hi);
  }

  lemma WeightedMeanBetween(F: seq<seq<real>>, w: seq<real>, t: nat, lo: real, hi: real)
    requires |F| == |w| && forall j :: 0 <= j < |F| ==> t < |F[j]|
    requires forall j :: 0 <= j < |F| ==> w[j] >= 0.0 && lo <= F[j][t] <= hi
    requires Sum(w) > 0.0
    ensures lo <= WeightedSum(F, w, t) / Sum(w) <= hi
  {
    WeightedSumBounds(F, w, t, lo, hi);
    QuotientBetween(lo, hi, WeightedSum(F, w, t), Sum(w));
  }

  function Rows(a: array<array<real>>): set<array<real>>
    reads a
  {
    set i | 0 <= i < a.Length :: a[i]
  }

  /** initializeCentroids (Forgy): the first k cells of a shuffled index array choose the
      centroids, which are the feature rows themselves, not copies. */
  method InitializeCentroids(featuresList: array<array<real>>, k: nat, rnd: int -> int)
    returns (centroids: array<array<real>>)
    requires k <= featuresList.Length && Draws(rnd)
    ensures fresh(centroids) && centroids.Length == k
    ensures forall i :: 0 <= i < k ==>
      centroids[i] == featuresList[Forgy(featuresList.Length, rnd)[i]]
  {
    var random := IdentityIndices(featuresList.Length);
    Shuffle(random, rnd);
    assert random[..] == Forgy(featuresList.Length, rnd);
    centroids := new array<real>[k](i requires 0 <= i < k && 0 <= random[i] < featuresList.Length
      reads random, featuresList => featuresList[random[i]]);
  }

  class EMClusters {
    const featuresList: array<array<real>>
    var centroids: array<array<real>>
    const memo: array2<real>
    const exp: real -> real

    /** The shape assign and update rely on: at least one feature, a memo of one row per feature
        and one column per centroid, and every feature and centroid of one common width. */
    ghost predicate Shape()
      reads this, featuresList, centroids
    {
      featuresList.Length >= 1 && memo.Length0 == featuresList.Length &&
      memo.Length1 == centroids.Length &&
      (forall i :: 0 <= i < featuresList.Length ==> featuresList[i].Length == featuresList[0].Length) &&
      (forall i :: 0 <= i < centroids.Length ==> centroids[i].Length == featuresList[0].Length) &&
      ExpPositive(exp)
    }

    ghost function Features(): (r: seq<seq<real>>)
      reads this, featuresList, Rows(featuresList)
      ensures |r| == featuresList.Length
    {
      seq(featuresList.Length, i requires 0 <= i < featuresList.Length
        reads featuresList, Rows(featuresList) => featuresList[i][..])
    }

    ghost function Centroids(): (r: seq<seq<real>>)
      reads this, centroids, Rows(centroids)
      ensures |r| == centroids.Length
    {
      seq(centroids.Length, i requires 0 <= i < centroids.Length
        reads this, centroids, Rows(centroids) => centroids[i][..])
    }

    /** Column c of the memo: every feature's weight for centroid c. */
    function Weights(c: int): (r: seq<real>)
      requires 0 <= c < memo.Length1
      reads this, memo
      ensures |r| == memo.Length0
    {
      seq(memo.Length0, j requires 0 <= j < memo.Length0 reads memo => memo[j, c])
    }

    /** No centroid row is a feature row, and no two centroids share a row. */
    ghost predicate Separate()
      reads this, featuresList, centroids
    {
      (forall i, j :: 0 <= i < centroids.Length && 0 <= j < featuresList.Length ==>
        centroids[i] != featuresList[j]) &&
      (forall i, j :: 0 <= i < j < centroids.Length ==> centroids[i] != centroids[j])
    }

    constructor (featuresList: array<array<real>>, k: nat, exp: real -> real, rnd: int -> int)
      requires featuresList.Length >= 1 && k <= featuresList.Length && Draws(rnd)
      ensures this.featuresList == featuresList && this.exp == exp
      ensures fresh(memo) && memo.Length0 == featuresList.Length && memo.Length1 == k
      ensures forall i, j :: 0 <= i < memo.Length0 && 0 <= j < memo.Length1 ==> memo[i, j] == 0.0
      ensures fresh(centroids) && centroids.Length == k
      ensures forall i :: 0 <= i < k ==>
        centroids[i] == featuresList[Forgy(featuresList.Length, rnd)[i]]
      ensures k >= 1 ==> !Separate()
    {
      this.featuresList := featuresList;
      this.exp := exp;
      memo := new real[featuresList.Length, k]((i, j) => 0.0);
      var c := InitializeCentroids(featuresList, k, rnd);
      centroids := c;
      if k >= 1 {
        var first := Forgy(featuresList.Length, rnd)[0];
        assert c[0] == featuresList[first];
      }
    }

    /** setCentroids stores the caller's array itself. */
    method SetCentroids(centroids: array<array<real>>)
      modifies this`centroids
      ensures this.centroids == centroids
    {
      this.centroids := centroids;
    }

    /** getCentroids: a read-only view of the centroid rows, which are shared, not copied. */
    method GetCentroids() returns (r: seq<array<real>>)
      ensures r == centroids[..]
    {
      r := centroids[..];
    }

    method GetMemo() returns (r: array2<real>)
      ensures r == memo
    {
      r := memo;
    }

    /** probabilityDensity: e to the squared distance. */
    method ProbabilityDensity(features: array<real>, centroid: array<real>) returns (d: real)
      requires features.Length <= centroid.Length
      ensures d == exp(DistSq(features[..], centroid[..]) as real)
    {
      var similarity := DistanceSquared(features, centroid);
      d := exp(similarity as real);
    }

    /** The first inner loop of assign: the densities of feature f against every centroid and
        their running total. */
    method DensityRow(f: array<real>, probabilities: array<real>) returns (sum: real)
      requires Shape() && f.Length == featuresList[0].Length
      requires probabilities.Length == centroids.Length && probabilities != f
      requires forall c :: 0 <= c < centroids.Length ==> centroids[c] != probabilities
      modifies probabilities
      ensures probabilities[..] == Densities(f[..], Centroids(), exp)
      ensures sum == Sum(probabilities[..])
    {
      sum := 0.0;
      ghost var ps: seq<real> := [];
      for j := 0 to centroids.Length
        invariant ps == probabilities[..j]
        invariant forall c :: 0 <= c < j ==> probabilities[c] == exp(DistSq(f[..], centroids[c][..]) as real)
        invariant sum == Sum(ps)
      {
        var d := ProbabilityDensity(f, centroids[j]);
        probabilities[j] := d;
        SumAppend(ps, d);
        ps := ps + [d];
        sum := sum + d;
      }
      assert probabilities[..] == ps;
    }

    /** The second inner loop of assign: divide every density by the total, note a change beyond
        ALLOWED_ERROR and store the result in memo row i. */
    method StoreRow(i: int, probabilities: array<real>, sum: real, changedBefore: bool) returns (changed: bool)
      requires 0 <= i < memo.Length0 && probabilities.Length == memo.Length1
      requires probabilities[..] == [] || sum != 0.0
      requires sum == Sum(probabilities[..])
      modifies memo, probabilities
      ensures forall j :: 0 <= j < memo.Length1 ==> memo[i, j] == Normalize(old(probabilities[..]))[j]
      ensures forall r, j :: 0 <= r < memo.Length0 && r != i && 0 <= j < memo.Length1 ==>
        memo[r, j] == old(memo[r, j])
      ensures changed <==> changedBefore || exists j :: 0 <= j < memo.Length1 && Moved(old(memo[i, j]), memo[i, j])
    {
      changed := changedBefore;
      ghost var p := probabilities[..];
      for j := 0 to probabilities.Length
        invariant forall c :: 0 <= c < j ==> probabilities[c] == p[c] / sum && memo[i, c] == p[c] / sum
        invariant forall c :: j <= c < probabilities.Length ==> probabilities[c] == p[c]
        invariant forall r, c :: 0 <= r < memo.Length0 && 0 <= c < memo.Length1 && (r != i || j <= c) ==>
          memo[r, c] == old(memo[r, c])
        invariant changed <==> changedBefore || exists c :: 0 <= c < j && Moved(old(memo[i, c]), memo[i, c])
      {
        probabilities[j] := probabilities[j] / sum;
        if !changed && Moved(memo[i, j], probabilities[j]) {
          changed := true;
        }
        memo[i, j] := probabilities[j];
      }
    }

    /** assign (soft): every memo row becomes the normalised densities of its feature against the
        current centroids; the result says whether any entry moved by more than ALLOWED_ERROR. */
    method Assign() returns (changed: bool)
      requires Shape()
      modifies memo
      ensures forall i, j :: 0 <= i < memo.Length0 && 0 <= j < memo.Length1 ==> memo[i, j] == SoftRow(Features()[i], Centroids(), exp)[j]
      ensures changed <==> exists i, j :: 0 <= i < memo.Length0 && 0 <= j < memo.Length1 && Moved(old(memo[i, j]), memo[i, j])
    {
      ghost var F := Features();
      ghost var C := Centroids();
      changed := false;
      var probabilities := new real[centroids.Length];
      assert probabilities !in Rows(featuresList) && probabilities !in Rows(centroids);
      for i := 0 to featuresList.Length
        invariant probabilities !in Rows(featuresList) && probabilities !in Rows(centroids)
        invariant Features() == F && Centroids() == C
        invariant forall r, j :: 0 <= r < i && 0 <= j < memo.Length1 ==> memo[r, j] == SoftRow(F[r], C, exp)[j]
        invariant forall r, j :: i <= r < memo.Length0 && 0 <= j < memo.Length1 ==> memo[r, j] == old(memo[r, j])
        invariant changed <==> exists r, j :: 0 <= r < i && 0 <= j < memo.Length1 && Moved(old(memo[r, j]), memo[r, j])
      {
        var sum := DensityRow(featuresList[i], probabilities);
        assert F[i] == featuresList[i][..];
        if probabilities[..] != [] {
          SumPositive(probabilities[..]);
        }
        changed := StoreRow(i, probabilities, sum, changed);
      }
    }
  
    /** Assigning twice with no update in between leaves the memo where the first call put it,
        and the second call reports no change. */
    method AssignTwice() returns (first: bool, second: bool)
      requires Shape()
      modifies memo
      ensures !second
      ensures forall i, j :: 0 <= i < memo.Length0 && 0 <= j < memo.Length1 ==> memo[i, j] == SoftRow(Features()[i], Centroids(), exp)[j]
    {
      first := Assign();
      ghost var F := Features();
      ghost var C := Centroids();
      label between:
      second := Assign();
      assert Features() == F && Centroids() == C;
      assert forall i, j :: 0 <= i < memo.Length0 && 0 <= j < memo.Length1 ==> old@between(memo[i, j]) == memo[i, j];
    }

    /** After a soft assign every column of the memo has a positive total. */
    lemma SoftColumnsPositive()
      requires Shape()
      requires forall i, j :: 0 <= i < memo.Length0 && 0 <= j < memo.Length1 ==> memo[i, j] == SoftRow(Features()[i], Centroids(), exp)[j]
      ensures forall c :: 0 <= c < memo.Length1 ==> Sum(Weights(c)) > 0.0
    {
      forall c | 0 <= c < memo.Length1
        ensures Sum(Weights(c)) > 0.0
      {
        forall i | 0 <= i < memo.Length0
          ensures Weights(c)[i] > 0.0
        {
          SoftRowStochastic(Features()[i], Centroids(), exp);
        }
        SumPositive(Weights(c));
      }
    }

    /** The first loop of update: every centroid row becomes zero, and with it every feature row
        that a centroid shares. */
    method ZeroCentroids()
      requires Shape()
      modifies Rows(centroids)
      ensures forall c, t :: 0 <= c < centroids.Length && 0 <= t < featuresList[0].Length ==> centroids[c][t] == 0.0
      ensures forall j, t :: 0 <= j < featuresList.Length && featuresList[j] in Rows(centroids) && 0 <= t < featuresList[0].Length ==> featuresList[j][t] == 0.0
    {
      for i := 0 to centroids.Length
        invariant forall c, t :: 0 <= c < i && 0 <= t < featuresList[0].Length ==> centroids[c][t] == 0.0
      {
        for j := 0 to centroids[0].Length
          invariant forall c, t :: 0 <= c < i && 0 <= t < featuresList[0].Length ==> centroids[c][t] == 0.0
          invariant forall t :: 0 <= t < j ==> centroids[i][t] == 0.0
        {
          centroids[i][j] := 0.0;
        }
      }
    }

    /** The innermost loop of update: adds feature j, weighted by its memo entry for centroid i,
        to centroid i. Exact even when the two rows are one array, since cell t of the feature is
        read before cell t of the centroid is written. */
    method AddRow(i: int, j: int)
      requires Shape() && 0 <= i < centroids.Length && 0 <= j < featuresList.Length
      modifies centroids[i]
      ensures forall t :: 0 <= t < featuresList[0].Length ==> centroids[i][t] == old(centroids[i][t]) + old(featuresList[j][t]) * memo[j, i]
    {
      for t := 0 to featuresList[0].Length
        invariant forall u :: 0 <= u < t ==> centroids[i][u] == old(centroids[i][u]) + old(featuresList[j][u]) * memo[j, i]
        invariant forall u :: t <= u < featuresList[0].Length ==> centroids[i][u] == old(centroids[i][u]) && featuresList[j][u] == old(featuresList[j][u])
      {
        centroids[i][t] := centroids[i][t] + featuresList[j][t] * memo[j, i];
      }
    }

    /** The middle loop of update: the total weight of centroid i and, when no rows are shared,
        the weighted sum of the features added to it. */
    method AccumulateCentroid(i: int) returns (sum: real)
      requires Shape() && 0 <= i < centroids.Length
      modifies centroids[i]
      ensures sum == Sum(Weights(i))
      ensures Separate() ==> Features() == old(Features())
      ensures Separate() ==> forall t :: 0 <= t < featuresList[0].Length ==> centroids[i][t] == old(centroids[i][t]) + WeightedSum(Features(), Weights(i), t)
    {
      ghost var F := Features();
      ghost var w := Weights(i);
      ghost var c0 := centroids[i][..];
      ghost var sep := Separate();
      ghost var W := featuresList[0].Length;
      sum := 0.0;
      for j := 0 to featuresList.Length
        invariant sum == Sum(w[..j])
        invariant Separate() == sep
        invariant sep ==> forall r :: 0 <= r < featuresList.Length ==> featuresList[r][..] == F[r]
        invariant sep ==> forall t :: 0 <= t < W ==> centroids[i][t] == c0[t] + WeightedSum(F[..j], w[..j], t)
      {
        SumStep(w, j);
        assert w[j] == memo[j, i];
        sum := sum + memo[j, i];
        ghost var before := centroids[i][..];
        ghost var row := featuresList[j][..];
        AddRow(i, j);
        if sep {
          assert row == F[j];
          AccumulateStep(F, w, c0, before, centroids[i][..], j, W);
        }
      }
      assert F[..featuresList.Length] == F && w[..featuresList.Length] == w;
      if sep {
        assert Features() == F;
      }
    }

    /** The last loop of update: centroid i divided by its total weight. */
    method NormalizeCentroid(i: int, sum: real)
      requires Shape() && 0 <= i < centroids.Length && sum != 0.0
      modifies centroids[i]
      ensures forall t :: 0 <= t < featuresList[0].Length ==> centroids[i][t] == old(centroids[i][t]) / sum
    {
      for j := 0 to centroids[0].Length
        invariant forall t :: 0 <= t < j ==> centroids[i][t] == old(centroids[i][t]) / sum
        invariant forall t :: j <= t < featuresList[0].Length ==> centroids[i][t] == old(centroids[i][t])
      {
        centroids[i][j] := centroids[i][j] / sum;
      }
    }

    /** One round of update's second loop: centroid i accumulates its weighted features and is
        divided by its total weight. */
    method UpdateCentroid(i: int)
      requires Shape() && 0 <= i < centroids.Length && Sum(Weights(i)) != 0.0
      modifies centroids[i]
      ensures Separate() ==> Features() == old(Features())
      ensures Separate() ==> forall t :: 0 <= t < featuresList[0].Length ==> centroids[i][t] == (old(centroids[i][t]) + WeightedSum(Features(), Weights(i), t)) / Sum(Weights(i))
    {
      var sum := AccumulateCentroid(i);
      NormalizeCentroid(i, sum);
    }

    /** Centroids before i hold their weighted means over F, the others are still zero. */
    ghost predicate UpdatedBelow(i: int, F: seq<seq<real>>)
      requires Shape() && |F| == featuresList.Length
      requires forall j :: 0 <= j < |F| ==> |F[j]| == featuresList[0].Length
      reads this, featuresList, centroids, Rows(centroids), memo
    {
      (forall c, t :: 0 <= c < i && c < centroids.Length && 0 <= t < featuresList[0].Length && Sum(Weights(c)) != 0.0 ==>
        centroids[c][t] == WeightedSum(F, Weights(c), t) / Sum(Weights(c))) &&
      (forall c, t :: i <= c < centroids.Length && 0 <= c && 0 <= t < featuresList[0].Length ==> centroids[c][t] == 0.0)
    }

    /** Round i of update's second loop, seen from the loop: one more centroid holds its mean. */
    method UpdateStep(i: int, ghost F: seq<seq<real>>)
      requires Shape() && 0 <= i < centroids.Length
      requires forall c :: 0 <= c < memo.Length1 ==> Sum(Weights(c)) != 0.0
      requires |F| == featuresList.Length && forall j :: 0 <= j < |F| ==> |F[j]| == featuresList[0].Length
      requires Separate() ==> Features() == F && UpdatedBelow(i, F)
      modifies centroids[i]
      ensures Separate() ==> Features() == F && UpdatedBelow(i + 1, F)
    {
      ghost var before := Centroids();
      ghost var W := featuresList[0].Length;
      assert Separate() ==> forall c, t :: i <= c < centroids.Length && 0 <= t < W ==> before[c][t] == 0.0;
      assert Separate() ==> forall c, t :: 0 <= c < i && 0 <= t < W ==> before[c][t] == WeightedSum(F, Weights(c), t) / Sum(Weights(c));
      UpdateCentroid(i);
      if Separate() {
        assert forall c :: 0 <= c < centroids.Length && c != i ==> centroids[c][..] == before[c];
        forall c, t | 0 <= c < centroids.Length && 0 <= t < W
          ensures centroids[c][t] == if c <= i then WeightedSum(F, Weights(c), t) / Sum(Weights(c)) else 0.0
        {
          if c != i {
            assert centroids[c][t] == centroids[c][..][t] == before[c][t];
          }
        }
        assert UpdatedBelow(i + 1, F);
      }
    }

    /** update: when no centroid shares a row with a feature or another centroid, every centroid
        becomes the memo-weighted mean of the features and the features stay as they were. */
    method Update()
      requires Shape()
      requires forall c :: 0 <= c < memo.Length1 ==> Sum(Weights(c)) != 0.0
      modifies Rows(centroids)
      ensures Separate() ==> Features() == old(Features())
      ensures Separate() ==> forall c, t :: 0 <= c < centroids.Length && 0 <= t < featuresList[0].Length ==> centroids[c][t] == WeightedSum(Features(), Weights(c), t) / Sum(Weights(c))
      ensures forall j :: 0 <= j < featuresList.Length && featuresList[j] !in Rows(centroids) ==>
        featuresList[j][..] == old(featuresList[j][..])
    {
      ghost var F := Features();
      ZeroCentroids();
      assert Separate() ==> Features() == F && UpdatedBelow(0, F);
      for i := 0 to centroids.Length
        invariant Separate() ==> Features() == F && UpdatedBelow(i, F)
      {
        UpdateStep(i, F);
      }
    }

    /** run, with the unbounded loop cut off after fuel rounds: assign, stop when nothing moved,
        otherwise update and go again. On convergence the memo is the soft assignment of the
        final centroids. */
    method Run(fuel: nat) returns (converged: bool)
      requires Shape()
      modifies memo, Rows(centroids)
      ensures converged ==> forall i, j :: 0 <= i < memo.Length0 && 0 <= j < memo.Length1 ==> memo[i, j] == SoftRow(Features()[i], Centroids(), exp)[j]
    {
      converged := false;
      var n := fuel;
      while n > 0
        invariant Shape()
        decreases n
      {
        var changed := Assign();
        if !changed {
          converged := true;
          return;
        }
        SoftColumnsPositive();
        Update();
        n := n - 1;
      }
    }
  }

  /** One row of the accumulation loop, column by column. */
  lemma AccumulateStep(F: seq<seq<real>>, w: seq<real>, c0: seq<real>, before: seq<real>, after: seq<real>, j: int, W: nat)
    requires |F| == |w| && 0 <= j < |F| && forall r :: 0 <= r < |F| ==> |F[r]| == W
    requires |c0| == |before| == |after| == W
    requires forall t :: 0 <= t < W ==> before[t] == c0[t] + WeightedSum(F[..j], w[..j], t)
    requires forall t :: 0 <= t < W ==> after[t] == before[t] + F[j][t] * w[j]
    ensures forall t :: 0 <= t < W ==> after[t] == c0[t] + WeightedSum(F[..j + 1], w[..j + 1], t)
  {
    forall t | 0 <= t < W
      ensures after[t] == c0[t] + WeightedSum(F[..j + 1], w[..j + 1], t)
    {
      WeightedSumStep(F, w, t, j);
    }
  }

  lemma WeightedSumStep(F: seq<seq<real>>, w: seq<real>, t: nat, j: int)
    requires |F| == |w| && 0 <= j < |F| && forall r :: 0 <= r < |F| ==> t < |F[r]|
    ensures WeightedSum(F[..j + 1], w[..j + 1], t) == WeightedSum(F[..j], w[..j], t) + F[j][t] * w[j]
  {
    assert F[..j + 1][..j] == F[..j] && w[..j + 1][..j] == w[..j];
  }
}
