/** The accumulator loops both normalisation variants share: a dot product, a sum of squared
    deviations around a given mean, and the vector rescaled to (x - mean) / std. The variants
    differ only in the denominator they divide these by. */
module Stats {
  import opened RealSeq

  /** The dot-product loop over the first n entries. */
  function Dot(a: seq<real>, b: seq<real>, n: nat): real
    requires n <= |a| && n <= |b|
  {
    if n == 0 then 0.0 else Dot(a, b, n - 1) + a[n - 1] * b[n - 1]
  }

  /** The variance loop before its division: Math.pow(x - mean, 2) summed over the first n
      entries. */
  function SqDev(s: seq<real>, mean: real, n: nat): real
    requires n <= |s|
  {
    if n == 0 then 0.0 else SqDev(s, mean, n - 1) + (s[n - 1] - mean) * (s[n - 1] - mean)
  }

  /** Every entry rewritten as (x - mean) / std. */
  function Centered(s: seq<real>, mean: real, std: real): (r: seq<real>)
    requires std != 0.0
    ensures |r| == |s|
  {
    seq(|s|, i requires 0 <= i < |s| => (s[i] - mean) / std)
  }

  /** Math.sqrt as an oracle: on non-negative arguments it is a non-negative square root. */
  ghost predicate SqrtLaws(sqrt: real -> real)
  {
    forall x :: x >= 0.0 ==> sqrt(x) >= 0.0 && sqrt(x) * sqrt(x) == x
  }

  lemma {:induction false} DotSymmetric(a: seq<real>, b: seq<real>, n: nat)
    requires n <= |a| && n <= |b|
    ensures Dot(a, b, n) == Dot(b, a, n)
  {
    if n > 0 {
      DotSymmetric(a, b, n - 1);
    }
  }

  lemma {:induction false} SqDevNonNegative(s: seq<real>, mean: real, n: nat)
    requires n <= |s|
    ensures SqDev(s, mean, n) >= 0.0
  {
    if n > 0 {
      SqDevNonNegative(s, mean, n - 1);
    }
  }

  /** A vector's dot product with itself is its squared deviation around 0. */
  lemma {:induction false} DotSelf(s: seq<real>, n: nat)
    requires n <= |s|
    ensures Dot(s, s, n) == SqDev(s, 0.0, n)
  {
    if n > 0 {
      DotSelf(s, n - 1);
    }
  }

  lemma AddQuotients(a: real, b: real, d: real)
    requires d != 0.0
    ensures a / d + b / d == (a + b) / d
  {
  }

  lemma QuotientSquareTimes(x: real, d: real)
    requires d != 0.0
    ensures (x / d) * (x / d) * (d * d) == x * x
  {
    var q := x / d;
    assert q * d == x;
    assert q * q * (d * d) == (q * d) * (q * d);
  }

  // Cancellation steps, stated on plain variables so that no product has to be matched
  // against another product.

  lemma Cancel(a: real, b: real, k: real)
    requires k != 0.0 && a * k == b * k
    ensures a == b
  {
    assert (a - b) * k == 0.0;
  }

  lemma TimesQuotient(n: real, q: real, k: real)
    requires n != 0.0 && k == q / n
    ensures n * k == q
  {
  }

  lemma QuotientNonZero(n: real, q: real, v: real)
    requires n != 0.0 && q != 0.0 && v == q / n
    ensures v != 0.0
  {
    TimesQuotient(n, q, v);
  }

  /** A number whose square is non-zero is non-zero. */
  lemma RootNonZero(r: real, v: real)
    requires v != 0.0 && r * r == v
    ensures r != 0.0
  {
  }

  lemma SubstituteSquare(x: real, r: real, v: real, q: real)
    requires x * (r * r) == q && r * r == v
    ensures x * v == q
  {
  }

  /** If x and n both multiply the non-zero v to q, they are equal. */
  lemma CancelCommon(x: real, n: real, v: real, q: real)
    requires v != 0.0 && x * v == q && n * v == q
    ensures x == n
  {
    Cancel(x, n, v);
  }

  /** The centred entries add up to (sum - n * mean) / std. */
  lemma {:induction false} CenteredSum(s: seq<real>, mean: real, std: real, n: nat)
    requires std != 0.0 && n <= |s|
    ensures Sum(Centered(s, mean, std)[..n]) == (Sum(s[..n]) - n as real * mean) / std
  {
    var c := Centered(s, mean, std);
    if n == 0 {
      assert c[..0] == [] && s[..0] == [];
    } else {
      CenteredSum(s, mean, std, n - 1);
      SumStep(c, n - 1);
      SumStep(s, n - 1);
      AddQuotients(Sum(s[..n - 1]) - (n - 1) as real * mean, s[n - 1] - mean, std);
    }
  }

  /** The centred vector's dot product with itself, times std squared, is the squared deviation
      around the mean. */
  lemma {:induction false} CenteredDot(s: seq<real>, mean: real, std: real, n: nat)
    requires std != 0.0 && n <= |s|
    ensures Dot(Centered(s, mean, std), Centered(s, mean, std), n) * (std * std) == SqDev(s, mean, n)
  {
    if n > 0 {
      var c := Centered(s, mean, std);
      CenteredDot(s, mean, std, n - 1);
      QuotientSquareTimes(s[n - 1] - mean, std);
      assert (Dot(c, c, n - 1) + c[n - 1] * c[n - 1]) * (std * std) ==
        Dot(c, c, n - 1) * (std * std) + c[n - 1] * c[n - 1] * (std * std);
    }
  }

  /** The oracle's square root of 1 is 1. */
  lemma SqrtOfOne(sqrt: real -> real)
    requires SqrtLaws(sqrt)
    ensures sqrt(1.0) == 1.0
  {
    var r := sqrt(1.0);
    assert r >= 0.0 && r * r == 1.0;
    var a, k := r - 1.0, r + 1.0;
    assert a * k == r * r - 1.0;
    assert a * k == 0.0 * k;
    Cancel(a, 0.0, k);
  }

  /** Math.sqrt of the squared deviations divided by d: d is n for the population deviation and
      n - 1 for the sample deviation. */
  function Spread(s: seq<real>, mean: real, d: real, sqrt: real -> real): real
    requires d != 0.0
  {
    sqrt(SqDev(s, mean, |s|) / d)
  }

  /** The spread is a non-negative number whose square is the squared deviations over d; it is
      non-zero when they are. */
  lemma SpreadIsRoot(s: seq<real>, mean: real, d: real, sqrt: real -> real)
    requires SqrtLaws(sqrt) && d > 0.0
    ensures var sd := Spread(s, mean, d, sqrt);
      sd >= 0.0 && sd * sd == SqDev(s, mean, |s|) / d &&
      (SqDev(s, mean, |s|) != 0.0 ==> sd != 0.0)
  {
    var q := SqDev(s, mean, |s|);
    var v := q / d;
    SqDevNonNegative(s, mean, |s|);
    var sd := sqrt(v);
    assert sd >= 0.0 && sd * sd == v;
    if q != 0.0 {
      QuotientNonZero(d, q, v);
      RootNonZero(sd, v);
    }
  }

  /** Centring by the mean leaves entries that add up to 0. */
  lemma CenteredSumZero(s: seq<real>, std: real)
    requires |s| > 0 && std != 0.0
    ensures Sum(Centered(s, Sum(s) / |s| as real, std)) == 0.0
  {
    var n := |s| as real;
    var m := Sum(s) / n;
    var c := Centered(s, m, std);
    CenteredSum(s, m, std, |s|);
    assert c[..|s|] == c && s[..|s|] == s;
    TimesQuotient(n, Sum(s), m);
    assert Sum(c) == 0.0 / std;
  }

  /** Dividing by the spread leaves a vector whose dot product with itself is d. */
  lemma CenteredDotIsDenominator(s: seq<real>, mean: real, d: real, sqrt: real -> real)
    requires SqrtLaws(sqrt) && d > 0.0 && SqDev(s, mean, |s|) != 0.0
    ensures Spread(s, mean, d, sqrt) != 0.0
    ensures var c := Centered(s, mean, Spread(s, mean, d, sqrt)); Dot(c, c, |c|) == d
  {
    SpreadIsRoot(s, mean, d, sqrt);
    var q := SqDev(s, mean, |s|);
    var v := q / d;
    var sd := Spread(s, mean, d, sqrt);
    assert sd * sd == v;
    QuotientNonZero(d, q, v);
    var c := Centered(s, mean, sd);
    CenteredDot(s, mean, sd, |s|);
    var dot := Dot(c, c, |s|);
    SubstituteSquare(dot, sd, v, q);
    TimesQuotient(d, q, v);
    CancelCommon(dot, d, v, q);
  }

  /** The squared distance between a and s times b over the first n entries. */
  function Gap(a: seq<real>, b: seq<real>, n: nat, s: real): real
    requires n <= |a| && n <= |b|
  {
    if n == 0 then 0.0 else Gap(a, b, n - 1, s) + (a[n - 1] - s * b[n - 1]) * (a[n - 1] - s * b[n - 1])
  }

  lemma {:induction false} GapNonNegative(a: seq<real>, b: seq<real>, n: nat, s: real)
    requires n <= |a| && n <= |b|
    ensures Gap(a, b, n, s) >= 0.0
  {
    if n > 0 {
      GapNonNegative(a, b, n - 1, s);
      MulNonNegativeSquare(a[n - 1] - s * b[n - 1]);
    }
  }

  lemma MulNonNegativeSquare(x: real)
    ensures x * x >= 0.0
  {
    if x < 0.0 {
      assert x * x == (-x) * (-x);
    }
  }

  /** One step of the expansion at s = 1 and at s = -1, on plain variables. */
  lemma ExpandStep(x: real, y: real)
    ensures (x - 1.0 * y) * (x - 1.0 * y) == x * x - 2.0 * (x * y) + y * y
    ensures (x - -1.0 * y) * (x - -1.0 * y) == x * x + 2.0 * (x * y) + y * y
  {
  }

  /** At s = 1 and s = -1 the gap expands into the three dot products. */
  lemma {:induction false} GapExpands(a: seq<real>, b: seq<real>, n: nat)
    requires n <= |a| && n <= |b|
    ensures Gap(a, b, n, 1.0) == Dot(a, a, n) - 2.0 * Dot(a, b, n) + Dot(b, b, n)
    ensures Gap(a, b, n, -1.0) == Dot(a, a, n) + 2.0 * Dot(a, b, n) + Dot(b, b, n)
  {
    if n > 0 {
      GapExpands(a, b, n - 1);
      ExpandStep(a[n - 1], b[n - 1]);
    }
  }

  /** Two vectors whose dot products with themselves are both m have a dot product with each
      other between -m and m: the gaps at s = 1 and s = -1 are non-negative. */
  lemma DotWithinSelf(a: seq<real>, b: seq<real>, n: nat, m: real)
    requires n <= |a| && n <= |b| && Dot(a, a, n) == m && Dot(b, b, n) == m
    ensures -m <= Dot(a, b, n) <= m
  {
    GapExpands(a, b, n);
    GapNonNegative(a, b, n, 1.0);
    GapNonNegative(a, b, n, -1.0);
  }

  /** A dot product with non-negative weights is at least lo times the weights' total when
      every other entry is at least lo ... */
  lemma {:induction false} DotAtLeast(w: seq<real>, x: seq<real>, n: nat, lo: real)
    requires n <= |w| && n <= |x|
    requires forall i :: 0 <= i < n ==> w[i] >= 0.0 && lo <= x[i]
    ensures lo * Sum(w[..n]) <= Dot(w, x, n)
  {
    if n == 0 {
      assert w[..0] == [];
    } else {
      var wi, xi := w[n - 1], x[n - 1];
      DotAtLeast(w, x, n - 1, lo);
      SumStep(w, n - 1);
      MulDistributes(lo, Sum(w[..n - 1]), wi, Sum(w[..n]));
      MulMonotone(wi, lo, xi);
    }
  }

  /** ... and at most hi times the total when every other entry is at most hi. */
  lemma {:induction false} DotAtMost(w: seq<real>, x: seq<real>, n: nat, hi: real)
    requires n <= |w| && n <= |x|
    requires forall i :: 0 <= i < n ==> w[i] >= 0.0 && x[i] <= hi
    ensures Dot(w, x, n) <= hi * Sum(w[..n])
  {
    if n == 0 {
      assert w[..0] == [];
    } else {
      var wi, xi := w[n - 1], x[n - 1];
      DotAtMost(w, x, n - 1, hi);
      SumStep(w, n - 1);
      MulDistributes(hi, Sum(w[..n - 1]), wi, Sum(w[..n]));
      MulMonotone(wi, xi, hi);
    }
  }

  /** A dot product with a constant weight a is a times the sum of the other entries. */
  lemma {:induction false} DotConstant(w: seq<real>, x: seq<real>, n: nat, a: real)
    requires n <= |w| && n <= |x|
    requires forall i :: 0 <= i < n ==> w[i] == a
    ensures Dot(w, x, n) == a * Sum(x[..n])
  {
    if n == 0 {
      assert x[..0] == [];
    } else {
      DotConstant(w, x, n - 1, a);
      SumStep(x, n - 1);
      MulDistributes(a, Sum(x[..n - 1]), x[n - 1], Sum(x[..n]));
    }
  }
}
