/** Hard clustering on top of the EM machinery: features are compared by one minus their mean
    absolute difference, every feature goes to the centroid it resembles most, and the run stops
    once a round reassigns no feature or no fewer features than the round before. */
module SimpleClusters {
  import opened RealSeq
  import EMClusters

  function Abs(x: real): real
  {
    if x < 0.0 then -x else x
  }

  /** The absolute differences of the first n entries, added up. */
  function AbsDiffSum(a: seq<real>, b: seq<real>, n: nat): real
    requires n <= |a| && n <= |b|
  {
    if n == 0 then 0.0 else AbsDiffSum(a, b, n - 1) + Abs(a[n - 1] - b[n - 1])
  }

  /** The running `distance` of difference after n rounds: the length of the first vector, less
      one absolute difference per round. */
  function Remaining(a: seq<real>, b: seq<real>, n: nat): real
    requires n <= |a| && n <= |b|
  {
    if n == 0 then |a| as real else Remaining(a, b, n - 1) - Abs(a[n - 1] - b[n - 1])
  }

  /** difference: what is left of the length after the absolute differences are taken off,
      divided by the length. Only the first |a| entries of b are read. */
  function Difference(a: seq<real>, b: seq<real>): real
    requires 0 < |a| <= |b|
  {
    Remaining(a, b, |a|) / |a| as real
  }

  /** probabilityDensity of the hard variant is the difference itself. */
  function ProbabilityDensity(features: seq<real>, centroid: seq<real>): real
    requires 0 < |features| <= |centroid|
  {
    Difference(features, centroid)
  }

  lemma {:induction false} RemainingIsLengthLessSum(a: seq<real>, b: seq<real>, n: nat)
    requires n <= |a| && n <= |b|
    ensures Remaining(a, b, n) == |a| as real - AbsDiffSum(a, b, n)
  {
    if n > 0 {
      RemainingIsLengthLessSum(a, b, n - 1);
    }
  }

  lemma {:induction false} AbsDiffSumSymmetric(a: seq<real>, b: seq<real>, n: nat)
    requires n <= |a| && n <= |b|
    ensures AbsDiffSum(a, b, n) == AbsDiffSum(b, a, n)
  {
    if n > 0 {
      AbsDiffSumSymmetric(a, b, n - 1);
    }
  }

  lemma {:induction false} AbsDiffSumNonNegative(a: seq<real>, b: seq<real>, n: nat)
    requires n <= |a| && n <= |b|
    ensures 0.0 <= AbsDiffSum(a, b, n)
  {
    if n > 0 {
      AbsDiffSumNonNegative(a, b, n - 1);
    }
  }

  lemma {:induction false} AbsDiffSumAtMost(a: seq<real>, b: seq<real>, n: nat, hi: real)
    requires n <= |a| && n <= |b|
    requires forall t :: 0 <= t < n ==> Abs(a[t] - b[t]) <= hi
    ensures AbsDiffSum(a, b, n) <= n as real * hi
  {
    if n > 0 {
      AbsDiffSumAtMost(a, b, n - 1, hi);
    }
  }

  lemma {:induction false} AbsDiffSumSelf(a: seq<real>, n: nat)
    requires n <= |a|
    ensures AbsDiffSum(a, a, n) == 0.0
  {
    if n > 0 {
      AbsDiffSumSelf(a, n - 1);
    }
  }

  /** difference(a, b) = 1 - (sum of |a_t - b_t|) / n; it is symmetric on vectors of equal
      length, 1 exactly on a vector and itself, and never above 1. */
  lemma DifferenceProperties(a: seq<real>, b: seq<real>)
    requires 0 < |a| <= |b|
    ensures Difference(a, b) == 1.0 - AbsDiffSum(a, b, |a|) / |a| as real
    ensures |a| == |b| ==> Difference(a, b) == Difference(b, a)
    ensures Difference(a, a) == 1.0
    ensures Difference(a, b) <= 1.0
  {
    var n := |a| as real;
    RemainingIsLengthLessSum(a, b, |a|);
    RemainingIsLengthLessSum(a, a, |a|);
    AbsDiffSumSelf(a, |a|);
    AbsDiffSumNonNegative(a, b, |a|);
    SplitQuotient(n, AbsDiffSum(a, b, |a|));
    SplitQuotient(n, 0.0);
    if |a| == |b| {
      RemainingIsLengthLessSum(b, a, |b|);
      AbsDiffSumSymmetric(a, b, |a|);
    }
  }

  /** On vectors whose entries all lie in [0, 1], difference lies in [0, 1]. */
  lemma DifferenceOfUnitVectors(a: seq<real>, b: seq<real>)
    requires 0 < |a| <= |b|
    requires forall t :: 0 <= t < |a| ==> 0.0 <= a[t] <= 1.0 && 0.0 <= b[t] <= 1.0
    ensures 0.0 <= Difference(a, b) <= 1.0
  {
    RemainingIsLengthLessSum(a, b, |a|);
    AbsDiffSumNonNegative(a, b, |a|);
    AbsDiffSumAtMost(a, b, |a|, 1.0);
    var n := |a| as real;
    SplitQuotient(n, AbsDiffSum(a, b, |a|));
    QuotientAtMostOne(AbsDiffSum(a, b, |a|), n);
  }

  // Scaling

  /** scale on values: a constant vector becomes all zeros, any other one is mapped by
      x |-> (x - min) / (max - min). The empty vector stays empty: its summary statistics have
      min = +infinity and max = -infinity, which differ, so it takes the second loop, which does
      nothing. */
  function Scaled(s: seq<real>): (r: seq<real>)
    ensures |r| == |s|
  {
    if s == [] then []
    else if Min(s) == Max(s) then seq(|s|, _ => 0.0)
    else seq(|s|, i requires 0 <= i < |s| => (s[i] - Min(s)) / (Max(s) - Min(s)))
  }

  /** scale: rewrites the array in place, subtracting the minimum and then dividing by the
      spread. */
  method Scale(features: array<real>)
    modifies features
    ensures features[..] == Scaled(old(features[..]))
  {
    if features.Length == 0 {
      return;
    }
    ghost var s := features[..];
    var min := Min(features[..]);
    var max := Max(features[..]);
    if min == max {
      for i := 0 to features.Length
        invariant forall t :: 0 <= t < i ==> features[t] == 0.0
      {
        features[i] := 0.0;
      }
    } else {
      for i := 0 to features.Length
        invariant forall t :: 0 <= t < i ==> features[t] == (s[t] - min) / (max - min)
        invariant forall t :: i <= t < features.Length ==> features[t] == s[t]
      {
        features[i] := features[i] - min;
        features[i] := features[i] / (max - min);
      }
    }
  }

  /** Every scaled entry lies in [0, 1]. */
  lemma ScaledInUnitRange(s: seq<real>)
    ensures forall i :: 0 <= i < |s| ==> 0.0 <= Scaled(s)[i] <= 1.0
  {
    if s != [] && Min(s) != Max(s) {
      forall i | 0 <= i < |s|
        ensures 0.0 <= Scaled(s)[i] <= 1.0
      {
        QuotientAtMostOne(s[i] - Min(s), Max(s) - Min(s));
      }
    }
  }

  /** Unless the vector is constant, its minimum becomes 0 and its maximum exactly 1. */
  lemma ScaledExtremes(s: seq<real>)
    requires s != [] && Min(s) != Max(s)
    ensures Min(Scaled(s)) == 0.0 && Max(Scaled(s)) == 1.0
  {
    var r := Scaled(s);
    ScaledInUnitRange(s);
    var lo :| 0 <= lo < |s| && s[lo] == Min(s);
    var hi :| 0 <= hi < |s| && s[hi] == Max(s);
    QuotientOfZero(s[lo] - Min(s), Max(s) - Min(s));
    QuotientOfSelf(s[hi] - Min(s), Max(s) - Min(s));
    assert r[lo] == 0.0 && r[hi] == 1.0;
    MinUnique(r, 0.0);
    MaxUnique(r, 1.0);
  }

  /** Order is preserved: a smaller entry never scales above a larger one. */
  lemma ScaledMonotone(s: seq<real>, a: int, b: int)
    requires 0 <= a < |s| && 0 <= b < |s| && s[a] <= s[b]
    ensures Scaled(s)[a] <= Scaled(s)[b]
  {
    if Min(s) != Max(s) {
      QuotientMonotone(s[a] - Min(s), s[b] - Min(s), Max(s) - Min(s));
    }
  }

  /** A constant vector becomes all zeros. */
  lemma ScaledConstant(s: seq<real>, c: real)
    requires forall i :: 0 <= i < |s| ==> s[i] == c
    ensures forall i :: 0 <= i < |s| ==> Scaled(s)[i] == 0.0
  {
    if s != [] {
      assert Min(s) == c && Max(s) == c;
    }
  }

  /** Scaling twice is scaling once. */
  lemma ScaledIdempotent(s: seq<real>)
    ensures Scaled(Scaled(s)) == Scaled(s)
  {
    var r := Scaled(s);
    if s != [] {
      if Min(s) == Max(s) {
        ScaledConstant(r, 0.0);
      } else {
        ScaledExtremes(s);
        forall i | 0 <= i < |r|
          ensures Scaled(r)[i] == r[i]
        {
          assert Scaled(r)[i] == (r[i] - 0.0) / (1.0 - 0.0);
        }
      }
    }
  }

  // Hard assignment

  /** The index the assign loop settles on: the first index holding the largest value, since
      only a strictly larger value replaces the current best. */
  function FirstArgMax(s: seq<real>): (w: int)
    requires s != []
    ensures 0 <= w < |s|
    ensures forall j :: 0 <= j < |s| ==> s[j] <= s[w]
    ensures forall j :: 0 <= j < w ==> s[j] < s[w]
  {
    if |s| == 1 then 0
    else
      var w' := FirstArgMax(s[..|s| - 1]);
      if s[|s| - 1] > s[w'] then |s| - 1 else w'
  }

  /** Conversely, the first index attaining the maximum is the only one with both properties. */
  lemma FirstArgMaxUnique(s: seq<real>, w: int)
    requires 0 <= w < |s|
    requires forall j :: 0 <= j < |s| ==> s[j] <= s[w]
    requires forall j :: 0 <= j < w ==> s[j] < s[w]
    ensures FirstArgMax(s) == w
  {
    var v := FirstArgMax(s);
    assert !(v < w) && !(w < v);
  }

  /** Every centroid is at least as wide as the feature, which is not empty. */
  ghost predicate Comparable(f: seq<real>, cs: seq<seq<real>>)
  {
    0 < |f| && forall j :: 0 <= j < |cs| ==> |f| <= |cs[j]|
  }

  /** The densities of feature f against every centroid. */
  function Differences(f: seq<real>, cs: seq<seq<real>>): (r: seq<real>)
    requires Comparable(f, cs)
    ensures |r| == |cs|
  {
    seq(|cs|, j requires 0 <= j < |cs| => ProbabilityDensity(f, cs[j]))
  }

  /** The centroid feature f is assigned to. */
  function Winner(f: seq<real>, cs: seq<seq<real>>): int
    requires Comparable(f, cs) && cs != []
  {
    FirstArgMax(Differences(f, cs))
  }

  /** The memo row the hard assign writes: 1 for the winner, a quarter of the density for every
      other centroid. */
  function HardRow(f: seq<real>, cs: seq<seq<real>>): (r: seq<real>)
    requires Comparable(f, cs) && cs != []
    ensures |r| == |cs|
  {
    var d := Differences(f, cs);
    seq(|cs|, j requires 0 <= j < |cs| => if j == Winner(f, cs) then 1.0 else 0.25 * d[j])
  }

  /** The winner is the first centroid of highest density; its entry is 1 and every other entry
      is a quarter of that centroid's density. On features and centroids in [0, 1] the winner's
      entry is the largest of the row. */
  lemma HardRowProperties(f: seq<real>, cs: seq<seq<real>>)
    requires Comparable(f, cs) && cs != []
    ensures var w := Winner(f, cs);
      0 <= w < |cs| &&
      (forall j :: 0 <= j < |cs| ==> ProbabilityDensity(f, cs[j]) <= ProbabilityDensity(f, cs[w])) &&
      (forall j :: 0 <= j < w ==> ProbabilityDensity(f, cs[j]) < ProbabilityDensity(f, cs[w])) &&
      HardRow(f, cs)[w] == 1.0 &&
      (forall j :: 0 <= j < |cs| && j != w ==> HardRow(f, cs)[j] == 0.25 * ProbabilityDensity(f, cs[j]))
    ensures ((forall t :: 0 <= t < |f| ==> 0.0 <= f[t] <= 1.0) &&
      (forall j, t :: 0 <= j < |cs| && 0 <= t < |f| ==> 0.0 <= cs[j][t] <= 1.0)) ==>
      forall j :: 0 <= j < |cs| ==> 0.0 <= HardRow(f, cs)[j] <= 1.0
  {
    var d := Differences(f, cs);
    assert forall j :: 0 <= j < |cs| ==> d[j] == ProbabilityDensity(f, cs[j]);
    if (forall t :: 0 <= t < |f| ==> 0.0 <= f[t] <= 1.0) &&
       (forall j, t :: 0 <= j < |cs| && 0 <= t < |f| ==> 0.0 <= cs[j][t] <= 1.0) {
      forall j | 0 <= j < |cs|
        ensures 0.0 <= d[j] <= 1.0
      {
        DifferenceOfUnitVectors(f, cs[j]);
      }
    }
  }

  /** The number of features assign counts as reassigned: unassigned before, or assigned to a
      different centroid. */
  function Reassigned(before: seq<int>, after: seq<int>): nat
    requires |before| == |after|
  {
    if before == [] then 0
    else
      var n := |before| - 1;
      Reassigned(before[..n], after[..n]) + (if before[n] == -1 || before[n] != after[n] then 1 else 0)
  }

  /** Coming from the constructor's all -1 assignments, every feature counts. */
  lemma {:induction false} ReassignedFromUnassigned(before: seq<int>, after: seq<int>)
    requires |before| == |after|
    requires forall i :: 0 <= i < |before| ==> before[i] == -1
    ensures Reassigned(before, after) == |before|
  {
    if before != [] {
      ReassignedFromUnassigned(before[..|before| - 1], after[..|after| - 1]);
    }
  }

  /** Reassigning every feature to the centroid it already has counts nothing. */
  lemma {:induction false} ReassignedNothing(s: seq<int>)
    requires forall i :: 0 <= i < |s| ==> s[i] >= 0
    ensures Reassigned(s, s) == 0
  {
    if s != [] {
      ReassignedNothing(s[..|s| - 1]);
    }
  }

  class SimpleClusters {
    const em: EMClusters.EMClusters
    /** The centroid each feature was last assigned to, -1 before the first assign. */
    const assignments: array<int>
    /** The reassignment count of the last round that reported progress. */
    var pastReassignments: int

    /** What assign needs beyond the EM shape: features of width at least one, at least one
        centroid (with none the winner stays -1 and the memo write throws), one assignment per
        feature. */
    ghost predicate Valid()
      reads this, em, em.featuresList, em.centroids
    {
      em.Shape() && em.featuresList[0].Length >= 1 && em.centroids.Length >= 1 &&
      assignments.Length == em.featuresList.Length && pastReassignments >= 0
    }

    constructor (featuresList: array<array<real>>, k: nat, exp: real -> real, rnd: int -> int)
      requires featuresList.Length >= 1 && k <= featuresList.Length && EMClusters.Draws(rnd)
      ensures fresh(em) && em.featuresList == featuresList && em.exp == exp
      ensures fresh(em.memo) && em.memo.Length0 == featuresList.Length && em.memo.Length1 == k
      ensures forall i, j :: 0 <= i < em.memo.Length0 && 0 <= j < em.memo.Length1 ==> em.memo[i, j] == 0.0
      ensures fresh(em.centroids) && em.centroids.Length == k
      ensures forall i :: 0 <= i < k ==>
        em.centroids[i] == featuresList[EMClusters.Forgy(featuresList.Length, rnd)[i]]
      ensures fresh(assignments) && assignments.Length == featuresList.Length
      ensures forall i :: 0 <= i < assignments.Length ==> assignments[i] == -1
      ensures pastReassignments == EMClusters.INT_MAX
    {
      em := new EMClusters.EMClusters(featuresList, k, exp, rnd);
      assignments := new int[featuresList.Length](_ => -1);
      pastReassignments := EMClusters.INT_MAX;
    }

    /** The densities and winner of feature i against the current centroids, as the inner loop
        of assign computes them: memo row i is set to a quarter of each density. */
    method AssignRow(i: int) returns (assignedCentroid: int)
      requires Valid() && 0 <= i < em.featuresList.Length
      modifies em.memo
      ensures em.Features() == old(em.Features()) && em.Centroids() == old(em.Centroids())
      ensures Comparable(em.Features()[i], em.Centroids())
      ensures assignedCentroid == Winner(em.Features()[i], em.Centroids())
      ensures forall j :: 0 <= j < em.memo.Length1 ==>
        em.memo[i, j] == 0.25 * Differences(em.Features()[i], em.Centroids())[j]
      ensures forall r, j :: 0 <= r < em.memo.Length0 && r != i && 0 <= j < em.memo.Length1 ==>
        em.memo[r, j] == old(em.memo[r, j])
    {
      ghost var F := em.Features();
      ghost var f := F[i];
      ghost var C := em.Centroids();
      assert Comparable(f, C);
      ghost var d := Differences(f, C);
      assignedCentroid := -1;
      var max := 0.0;
      for j := 0 to em.centroids.Length
        invariant em.Features() == F && em.Centroids() == C
        invariant j == 0 ==> assignedCentroid == -1
        invariant j > 0 ==> 0 <= assignedCentroid < j && max == d[assignedCentroid]
        invariant forall t :: 0 <= t < j ==> d[t] <= max
        invariant forall t :: 0 <= t < assignedCentroid ==> d[t] < max
        invariant forall t :: 0 <= t < j ==> em.memo[i, t] == 0.25 * d[t]
        invariant forall r, t :: 0 <= r < em.memo.Length0 && r != i && 0 <= t < em.memo.Length1 ==>
          em.memo[r, t] == old(em.memo[r, t])
      {
        assert f == em.featuresList[i][..] && C[j] == em.centroids[j][..];
        var p := ProbabilityDensity(em.featuresList[i][..], em.centroids[j][..]);
        assert p == d[j];
        // max starts at negative infinity, which the first density always beats
        if assignedCentroid == -1 || p > max {
          assignedCentroid := j;
          max := p;
        }
        em.memo[i, j] := 0.25 * p;
      }
      FirstArgMaxUnique(d, assignedCentroid);
    }

    /** Memo rows below i are the rows of H. */
    ghost predicate MemoBelow(i: int, H: seq<seq<real>>)
      reads this, em, em.memo
    {
      0 <= i <= |H| == em.memo.Length0 && (forall r :: 0 <= r < |H| ==> |H[r]| == em.memo.Length1) &&
      forall r, j :: 0 <= r < i && 0 <= j < em.memo.Length1 ==> em.memo[r, j] == H[r][j]
    }

    /** Assignments below i are the entries of W and count is the number of features reassigned
        among them; the assignments from i on are still those of before. */
    ghost predicate AssignmentsBelow(i: int, W: seq<int>, before: seq<int>, count: int)
      reads this, assignments
    {
      0 <= i <= assignments.Length == |before| == |W| &&
      (forall r :: 0 <= r < i ==> assignments[r] == W[r]) &&
      (forall r :: i <= r < assignments.Length ==> assignments[r] == before[r]) &&
      count == Reassigned(before[..i], assignments[..i])
    }

    /** The bookkeeping half of round i: record the winner and count the feature when it was
        unassigned or assigned elsewhere. */
    method Reassign(i: int, assignedCentroid: int, ghost W: seq<int>, ghost before: seq<int>,
      reassignments: int) returns (count: int)
      requires 0 <= i < assignments.Length && AssignmentsBelow(i, W, before, reassignments)
      requires assignedCentroid == W[i]
      modifies assignments
      ensures AssignmentsBelow(i + 1, W, before, count)
    {
      ghost var mid := assignments[..];
      count := reassignments;
      if assignments[i] == -1 || assignments[i] != assignedCentroid {
        count := count + 1;
        assignments[i] := assignedCentroid;
      }
      assert before[..i + 1][..i] == before[..i];
      assert assignments[..i + 1][..i] == mid[..i];
    }

    /** Round i of assign's outer loop: row i of the memo, its bonus and its assignment. */
    method AssignStep(i: int, ghost H: seq<seq<real>>, ghost W: seq<int>, ghost before: seq<int>,
      reassignments: int) returns (count: int)
      requires Valid() && 0 <= i < em.featuresList.Length
      requires MemoBelow(i, H) && AssignmentsBelow(i, W, before, reassignments)
      requires Comparable(em.Features()[i], em.Centroids())
      requires H[i] == HardRow(em.Features()[i], em.Centroids()) && W[i] == Winner(em.Features()[i], em.Centroids())
      modifies em.memo, assignments
      ensures em.Features() == old(em.Features()) && em.Centroids() == old(em.Centroids())
      ensures MemoBelow(i + 1, H) && AssignmentsBelow(i + 1, W, before, count)
    {
      var assignedCentroid := AssignRow(i);
      count := Reassign(i, assignedCentroid, W, before, reassignments);
      // The assigned centroid gets a bonus
      em.memo[i, assignedCentroid] := 1.0;
      assert forall j :: 0 <= j < em.memo.Length1 ==> em.memo[i, j] == H[i][j];
    }

    /** assign (hard): every memo row becomes the hard row of its feature and every feature is
        assigned its winner. It reports progress when the number of reassigned features is
        positive and below the last recorded count, and only then records the new count. */
    method Assign() returns (progress: bool)
      requires Valid()
      modifies em.memo, assignments, this`pastReassignments
      ensures Valid()
      ensures em.Features() == old(em.Features()) && em.Centroids() == old(em.Centroids())
      ensures forall i, j :: 0 <= i < em.memo.Length0 && 0 <= j < em.memo.Length1 ==>
        em.memo[i, j] == HardRow(em.Features()[i], em.Centroids())[j]
      ensures forall i :: 0 <= i < assignments.Length ==>
        assignments[i] == Winner(em.Features()[i], em.Centroids())
      ensures var count := Reassigned(old(assignments[..]), assignments[..]);
        (progress <==> 0 < count < old(pastReassignments)) &&
        pastReassignments == if progress then count else old(pastReassignments)
      ensures progress ==> 0 < pastReassignments < old(pastReassignments)
      ensures ((forall i :: 0 <= i < assignments.Length ==> old(assignments[i]) == -1) &&
        assignments.Length < old(pastReassignments)) ==> progress
    {
      ghost var before := assignments[..];
      var reassignments := AssignAll();
      ghost var F, C := em.Features(), em.Centroids();
      if forall i :: 0 <= i < assignments.Length ==> before[i] == -1 {
        ReassignedFromUnassigned(before, assignments[..]);
      }
      if reassignments >= pastReassignments || reassignments == 0 {
        return false;
      }
      pastReassignments := reassignments;
      assert em.Features() == F && em.Centroids() == C;
      return true;
    }

    /** Assigning twice with no update in between: the second call finds every feature already
        at its winner, so it reassigns nothing (again is its count), reports no progress and
        leaves the memo, the assignments and pastReassignments as the first call left them. */
    method AssignTwice() returns (first: bool, second: bool, ghost again: int)
      requires Valid()
      modifies em.memo, assignments, this`pastReassignments
      ensures Valid()
      ensures em.Features() == old(em.Features()) && em.Centroids() == old(em.Centroids())
      ensures forall i, j :: 0 <= i < em.memo.Length0 && 0 <= j < em.memo.Length1 ==>
        em.memo[i, j] == HardRow(em.Features()[i], em.Centroids())[j]
      ensures forall i :: 0 <= i < assignments.Length ==>
        assignments[i] == Winner(em.Features()[i], em.Centroids())
      ensures var count := Reassigned(old(assignments[..]), assignments[..]);
        (first <==> 0 < count < old(pastReassignments)) &&
        pastReassignments == if first then count else old(pastReassignments)
      ensures again == 0 && !second
    {
      first := Assign();
      ghost var between := assignments[..];
      ghost var past := pastReassignments;
      second := Assign();
      assert assignments[..] == between;
      ReassignedNothing(between);
      again := Reassigned(between, assignments[..]);
      assert pastReassignments == past;
    }

    /** Both loops of assign, before the convergence test. */
    method AssignAll() returns (reassignments: int)
      requires Valid()
      modifies em.memo, assignments
      ensures em.Features() == old(em.Features()) && em.Centroids() == old(em.Centroids())
      ensures forall i, j :: 0 <= i < em.memo.Length0 && 0 <= j < em.memo.Length1 ==>
        em.memo[i, j] == HardRow(em.Features()[i], em.Centroids())[j]
      ensures forall i :: 0 <= i < assignments.Length ==>
        assignments[i] == Winner(em.Features()[i], em.Centroids())
      ensures reassignments == Reassigned(old(assignments[..]), assignments[..])
    {
      ghost var F := em.Features();
      ghost var C := em.Centroids();
      ghost var before := assignments[..];
      assert forall r :: 0 <= r < |F| ==> Comparable(F[r], C);
      ghost var H := seq(|F|, r requires 0 <= r < |F| => HardRow(F[r], C));
      ghost var W := seq(|F|, r requires 0 <= r < |F| => Winner(F[r], C));
      reassignments := 0;
      for i := 0 to em.featuresList.Length
        invariant em.Features() == F && em.Centroids() == C
        invariant MemoBelow(i, H) && AssignmentsBelow(i, W, before, reassignments)
      {
        reassignments := AssignStep(i, H, W, before, reassignments);
      }
      assert before[..assignments.Length] == before;
      assert assignments[..assignments.Length] == assignments[..];
    }

    /** run with the hard assign step: assign, stop when it reports no progress, otherwise update
        the centroids and go again. Every round that goes on lowers pastReassignments, so the
        loop ends. The model also stops, reporting stalled, before an update that would divide
        by a zero memo column total. */
    method Run() returns (stalled: bool)
      requires Valid()
      modifies em.memo, assignments, this`pastReassignments, EMClusters.Rows(em.centroids)
      ensures Valid()
      ensures stalled ==> exists c :: 0 <= c < em.memo.Length1 && Sum(em.Weights(c)) == 0.0
      ensures !stalled ==> forall i, j :: 0 <= i < em.memo.Length0 && 0 <= j < em.memo.Length1 ==>
        em.memo[i, j] == HardRow(em.Features()[i], em.Centroids())[j]
      ensures !stalled ==> forall i :: 0 <= i < assignments.Length ==>
        assignments[i] == Winner(em.Features()[i], em.Centroids())
    {
      while true
        invariant Valid()
        decreases pastReassignments
      {
        var progress := Assign();
        if !progress {
          return false;
        }
        if exists c :: 0 <= c < em.memo.Length1 && Sum(em.Weights(c)) == 0.0 {
          return true;
        }
        em.Update();
      }
    }
  }
}
