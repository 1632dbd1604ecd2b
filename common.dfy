/** The outcome of an operation that the source lets fail with an exception. */
module Optional {
  datatype Option<T> = None | Some(value: T)
}

/** Sums, minima and maxima of sequences of reals, the arithmetic every accumulator loop of the
    system computes. Sums fold from the left, as the source's loops do. */
module RealSeq {

  function Sum(s: seq<real>): real
  {
    if s == [] then 0.0 else Sum(s[..|s| - 1]) + s[|s| - 1]
  }

  lemma SumAppend(s: seq<real>, x: real)
    ensures Sum(s + [x]) == Sum(s) + x
  {
    assert (s + [x])[..|s|] == s;
  }

  /** One more step of a left-to-right accumulator loop. */
  lemma SumStep(s: seq<real>, i: int)
    requires 0 <= i < |s|
    ensures Sum(s[..i + 1]) == Sum(s[..i]) + s[i]
  {
    assert s[..i + 1] == s[..i] + [s[i]];
    SumAppend(s[..i], s[i]);
  }

  lemma {:induction false} SumConcat(a: seq<real>, b: seq<real>)
    ensures Sum(a + b) == Sum(a) + Sum(b)
    decreases |b|
  {
    if b == [] {
      assert a + b == a;
    } else {
      var b' := b[..|b| - 1];
      var x := b[|b| - 1];
      assert b == b' + [x];
      assert a + b == (a + b') + [x];
      SumConcat(a, b');
      SumAppend(a + b', x);
      SumAppend(b', x);
    }
  }

  lemma {:induction false} SumBounds(s: seq<real>, lo: real, hi: real)
    requires forall i :: 0 <= i < |s| ==> lo <= s[i] <= hi
    ensures |s| as real * lo <= Sum(s) <= |s| as real * hi
  {
    if s != [] {
      SumBounds(s[..|s| - 1], lo, hi);
    }
  }

  lemma {:induction false} SumPositive(s: seq<real>)
    requires s != []
    requires forall i :: 0 <= i < |s| ==> s[i] > 0.0
    ensures Sum(s) > 0.0
  {
    if |s| > 1 {
      SumPositive(s[..|s| - 1]);
    } else {
      assert s[..0] == [];
    }
  }

  lemma {:induction false} SumConstant(s: seq<real>, c: real)
    requires forall i :: 0 <= i < |s| ==> s[i] == c
    ensures Sum(s) == |s| as real * c
  {
    if s != [] {
      SumConstant(s[..|s| - 1], c);
    }
  }

  /** The sum of pointwise-scaled entries is the scaled sum. */
  lemma {:induction false} SumScale(a: seq<real>, b: seq<real>, c: real)
    requires |a| == |b|
    requires forall i :: 0 <= i < |a| ==> b[i] == c * a[i]
    ensures Sum(b) == c * Sum(a)
  {
    if a != [] {
      SumScale(a[..|a| - 1], b[..|b| - 1], c);
    }
  }

  /** The sum of pointwise differences is the difference of the sums. */
  lemma {:induction false} SumMinus(a: seq<real>, b: seq<real>, d: seq<real>)
    requires |a| == |b| == |d|
    requires forall i :: 0 <= i < |a| ==> d[i] == a[i] - b[i]
    ensures Sum(d) == Sum(a) - Sum(b)
  {
    if a != [] {
      SumMinus(a[..|a| - 1], b[..|b| - 1], d[..|d| - 1]);
    }
  }

  function Min(s: seq<real>): (m: real)
    requires s != []
    ensures m in s
    ensures forall i :: 0 <= i < |s| ==> m <= s[i]
  {
    if |s| == 1 then s[0]
    else
      var m' := Min(s[..|s| - 1]);
      assert forall i :: 0 <= i < |s| - 1 ==> s[..|s| - 1][i] == s[i];
      if s[|s| - 1] < m' then s[|s| - 1] else m'
  }

  function Max(s: seq<real>): (m: real)
    requires s != []
    ensures m in s
    ensures forall i :: 0 <= i < |s| ==> s[i] <= m
  {
    if |s| == 1 then s[0]
    else
      var m' := Max(s[..|s| - 1]);
      assert forall i :: 0 <= i < |s| - 1 ==> s[..|s| - 1][i] == s[i];
      if s[|s| - 1] > m' then s[|s| - 1] else m'
  }

  /** Any value that bounds every entry from below and occurs in s is the minimum. */
  lemma MinUnique(s: seq<real>, m: real)
    requires m in s
    requires forall i :: 0 <= i < |s| ==> m <= s[i]
    ensures Min(s) == m
  {
    var k :| 0 <= k < |s| && s[k] == m;
    var j :| 0 <= j < |s| && s[j] == Min(s);
  }

  lemma MaxUnique(s: seq<real>, m: real)
    requires m in s
    requires forall i :: 0 <= i < |s| ==> s[i] <= m
    ensures Max(s) == m
  {
    var k :| 0 <= k < |s| && s[k] == m;
    var j :| 0 <= j < |s| && s[j] == Max(s);
  }

  /** A left-to-right summing loop over a window, as in makeDecision. */
  method Total(w: seq<real>) returns (t: real)
    ensures t == Sum(w)
  {
    t := 0.0;
    for i := 0 to |w|
      invariant t == Sum(w[..i])
    {
      SumStep(w, i);
      t := t + w[i];
    }
    assert w[..|w|] == w;
  }

  // Dividing by a total

  /** Every entry divided by the total. */
  function Normalize(p: seq<real>): (r: seq<real>)
    requires p == [] || Sum(p) != 0.0
    ensures |r| == |p|
  {
    seq(|p|, j requires 0 <= j < |p| => p[j] / Sum(p))
  }

  lemma NormalizeScales(p: seq<real>, s: real)
    requires p != [] && s == Sum(p) && s > 0.0
    ensures forall j :: 0 <= j < |p| ==> Normalize(p)[j] == (1.0 / s) * p[j]
  {
  }

  lemma NormalizeSumsToOne(p: seq<real>, s: real)
    requires p != [] && s == Sum(p) && s > 0.0
    ensures Sum(Normalize(p)) == 1.0
  {
    NormalizeScales(p, s);
    SumScale(p, Normalize(p), 1.0 / s);
  }

  /** Normalising positive entries gives positive entries that sum to 1. */
  lemma NormalizeStochastic(p: seq<real>)
    requires p != [] && forall j :: 0 <= j < |p| ==> p[j] > 0.0
    ensures Sum(p) > 0.0
    ensures forall j :: 0 <= j < |p| ==> Normalize(p)[j] > 0.0
    ensures Sum(Normalize(p)) == 1.0
  {
    SumPositive(p);
    NormalizeSumsToOne(p, Sum(p));
  }

  // Quotients

  lemma SplitQuotient(n: real, x: real)
    requires n > 0.0
    ensures (n - x) / n == 1.0 - x / n
  {
    assert (n - x) / n == n / n - x / n;
  }

  /** A part of a positive whole is at most the whole. */
  lemma QuotientAtMostOne(x: real, n: real)
    requires n > 0.0 && x <= n
    ensures x / n <= 1.0
  {
    assert x / n * n == x;
  }

  lemma QuotientMonotone(x: real, y: real, d: real)
    requires d > 0.0 && x <= y
    ensures x / d <= y / d
  {
    assert y / d - x / d == (y - x) / d;
  }

  lemma QuotientOfZero(x: real, d: real)
    requires d > 0.0 && x == 0.0
    ensures x / d == 0.0
  {
  }

  lemma QuotientOfSelf(x: real, d: real)
    requires d > 0.0 && x == d
    ensures x / d == 1.0
  {
  }

  // Products, stated on plain variables

  lemma MulNonNegative(a: real, b: real)
    requires a >= 0.0 && b >= 0.0
    ensures a * b >= 0.0
  {
  }

  lemma MulMonotone(w: real, lo: real, x: real)
    requires w >= 0.0 && lo <= x
    ensures w * lo <= w * x
  {
    MulNonNegative(w, x - lo);
  }

  lemma MulDistributes(a: real, b: real, c: real, s: real)
    requires s == b + c
    ensures a * s == a * b + a * c
  {
  }

  /** Bounds on a total carry over to the quotient by the positive total weight. */
  lemma QuotientBetween(lo: real, hi: real, x: real, s: real)
    requires s > 0.0 && lo * s <= x <= hi * s
    ensures lo <= x / s <= hi
  {
    var q := x / s;
    assert q * s == x;
    assert (q - lo) * s >= 0.0;
    assert (hi - q) * s >= 0.0;
  }

  /** Math.exp as an oracle: every value it takes is positive. */
  ghost predicate ExpPositive(exp: real -> real)
  {
    forall x :: exp(x) > 0.0
  }
}
