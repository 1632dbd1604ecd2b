/** The batch feature pipeline: the Historian slides a fixed window over the close column of an
    OHLCV timeline and records, per window, the closes, the forward price delta (the label) and
    the summed volume. */
module Historian {
  import opened RealSeq
  import opened Optional

  // Column indices of a timeline row.
  const TIME: nat := 0
  const LOW: nat := 1
  const HIGH: nat := 2
  const OPEN: nat := 3
  const CLOSE: nat := 4
  const VOLUME: nat := 5

  /** Which windows to keep, by the sign of their label. */
  datatype TypeFilter = Both | Buys | Sells

  /** Which half of the timeline to scan: all of it, the training half or the testing half. */
  datatype SetFilter = Both | Training | Testing

  type Row = seq<real>

  /** Every row carries the six OHLCV columns. */
  ghost predicate WellFormed(timeline: seq<Row>)
  {
    forall r :: r in timeline ==> |r| > VOLUME
  }

  /** The scan range [Left, Right) for a timeline of n rows. */
  function Left(n: nat, split: SetFilter): nat
  {
    if split == SetFilter.Both || split == Training then 0 else n / 2
  }

  function Right(n: nat, split: SetFilter): nat
  {
    if split == SetFilter.Both || split == Testing then n else n / 2
  }

  /** The label of the window starting at i, as the source computes it, including the branch that
      clamps to the last close when the forward row lies past the end. */
  function Label(timeline: seq<Row>, i: nat, windowSize: nat): real
    requires WellFormed(timeline)
    requires windowSize >= 1 && i + windowSize - 1 < |timeline|
  {
    if i + windowSize >= |timeline| then timeline[|timeline| - 1][CLOSE]
    else timeline[i + windowSize][CLOSE] - timeline[i + windowSize - 1][CLOSE]
  }

  predicate Keeps(filter: TypeFilter, delta: real)
  {
    filter == TypeFilter.Both || (filter == Buys && delta > 0.0) || (filter == Sells && delta < 0.0)
  }

  /** The kept scan positions in [lo, hi), in increasing order. */
  function KeptIn(timeline: seq<Row>, windowSize: nat, filter: TypeFilter, lo: nat, hi: int): (r: seq<nat>)
    requires WellFormed(timeline)
    requires windowSize >= 1 && (hi <= lo || hi + windowSize <= |timeline|)
    ensures forall k :: 0 <= k < |r| ==> lo <= r[k] < hi
    decreases hi - lo
  {
    if hi <= lo then []
    else
      KeptIn(timeline, windowSize, filter, lo, hi - 1)
      + (if Keeps(filter, Label(timeline, hi - 1, windowSize)) then [hi - 1] else [])
  }

  /** The scan positions whose windows extractOrders returns. */
  function Positions(timeline: seq<Row>, windowSize: nat, filter: TypeFilter, split: SetFilter): (r: seq<nat>)
    requires WellFormed(timeline) && windowSize >= 1
    ensures forall k :: 0 <= k < |r| ==> Left(|timeline|, split) <= r[k] && r[k] + windowSize < Right(|timeline|, split)
  {
    var n := |timeline|;
    KeptIn(timeline, windowSize, filter, Left(n, split), Right(n, split) - windowSize)
  }

  /** The first len closes starting at row i. */
  function Closes(timeline: seq<Row>, i: nat, len: nat): seq<real>
    requires WellFormed(timeline) && i + len <= |timeline|
  {
    seq(len, t requires 0 <= t < len => timeline[i + t][CLOSE])
  }

  /** The summed volume of rows [i, j). */
  function VolumeOf(timeline: seq<Row>, i: nat, j: nat): real
    requires WellFormed(timeline) && i <= j <= |timeline|
    decreases j - i
  {
    if j == i then 0.0 else VolumeOf(timeline, i, j - 1) + timeline[j - 1][VOLUME]
  }

  /** The parallel arrays a History holds. */
  datatype History = History(features: seq<seq<real>>, labels: seq<real>, volumes: seq<real>)

  /** h holds, entry by entry, the window, label and volume of the scan positions P. */
  ghost predicate Describes(timeline: seq<Row>, windowSize: nat, P: seq<nat>, h: History)
    requires WellFormed(timeline) && windowSize >= 1
  {
    |h.features| == |h.labels| == |h.volumes| == |P| &&
    forall k :: 0 <= k < |P| ==>
      P[k] + windowSize < |timeline| &&
      h.features[k] == Closes(timeline, P[k], windowSize) &&
      h.labels[k] == Label(timeline, P[k], windowSize) &&
      h.volumes[k] == VolumeOf(timeline, P[k], P[k] + windowSize)
  }

  lemma DescribesAppend(timeline: seq<Row>, windowSize: nat, P: seq<nat>, h: History,
                        i: nat, f: seq<real>, l: real, v: real)
    requires WellFormed(timeline) && windowSize >= 1 && i + windowSize < |timeline|
    requires Describes(timeline, windowSize, P, h)
    requires f == Closes(timeline, i, windowSize)
    requires l == Label(timeline, i, windowSize)
    requires v == VolumeOf(timeline, i, i + windowSize)
    ensures Describes(timeline, windowSize, P + [i], History(h.features + [f], h.labels + [l], h.volumes + [v]))
  {
  }

  /** One more scan position appends it exactly when its delta passes the filter. */
  lemma KeptInStep(timeline: seq<Row>, windowSize: nat, filter: TypeFilter, lo: nat, i: nat)
    requires WellFormed(timeline) && windowSize >= 1 && lo <= i && i + windowSize < |timeline|
    ensures KeptIn(timeline, windowSize, filter, lo, i + 1) ==
      KeptIn(timeline, windowSize, filter, lo, i) +
      (if Keeps(filter, Label(timeline, i, windowSize)) then [i] else [])
  {
  }

  class Historian {
    const timeline: seq<Row>

    constructor (timeline: seq<Row>)
      ensures this.timeline == timeline
    {
      this.timeline := timeline;
    }

    /** The inner loop of extractOrders: the closes of rows [i, i + windowSize) and their summed
        volume. */
    method CopyWindow(i: nat, windowSize: nat) returns (features: array<real>, volume: real)
      requires WellFormed(timeline) && i + windowSize <= |timeline|
      ensures fresh(features)
      ensures features[..] == Closes(timeline, i, windowSize)
      ensures volume == VolumeOf(timeline, i, i + windowSize)
    {
      features := new real[windowSize];
      volume := 0.0;
      var j := i;
      while j < i + windowSize
        invariant i <= j <= i + windowSize
        invariant features[..j - i] == Closes(timeline, i, j - i)
        invariant volume == VolumeOf(timeline, i, j)
      {
        features[j - i] := timeline[j][CLOSE];
        volume := volume + timeline[j][VOLUME];
        j := j + 1;
        assert features[..j - i] == features[..j - i - 1] + [features[j - i - 1]];
      }
      assert features[..] == features[..windowSize];
    }

    /** One kept window: its closes, label and volume appended to the three lists. */
    method AppendWindow(i: nat, windowSize: nat, delta: real, ghost P: seq<nat>, h: History) returns (h': History)
      requires WellFormed(timeline) && windowSize >= 1 && i + windowSize < |timeline|
      requires delta == Label(timeline, i, windowSize) && Describes(timeline, windowSize, P, h)
      ensures Describes(timeline, windowSize, P + [i], h')
    {
      var features, volume := CopyWindow(i, windowSize);
      DescribesAppend(timeline, windowSize, P, h, i, features[..], delta, volume);
      h' := History(h.features + [features[..]], h.labels + [delta], h.volumes + [volume]);
    }

    /** The scan loop of extractOrders over [left, right - windowSize): copies the window, label
        and volume of every position whose delta passes the filter. */
    method ScanWindows(left: nat, right: nat, windowSize: nat, filter: TypeFilter) returns (h: History)
      requires WellFormed(timeline) && windowSize >= 1 && left <= right <= |timeline|
      ensures Describes(timeline, windowSize, KeptIn(timeline, windowSize, filter, left, right - windowSize), h)
    {
      h := History([], [], []);
      ghost var kept: seq<nat> := [];
      var stop := if right - windowSize > left then right - windowSize else left;
      var i := left;
      while i < stop
        invariant left <= i <= stop
        invariant kept == KeptIn(timeline, windowSize, filter, left, i)
        invariant Describes(timeline, windowSize, kept, h)
      {
        var delta := Label(timeline, i, windowSize);
        KeptInStep(timeline, windowSize, filter, left, i);
        if Keeps(filter, delta) {
          h := AppendWindow(i, windowSize, delta, kept, h);
          kept := kept + [i];
        }
        i := i + 1;
      }
    }

    /** Returns None where building the History fails because no window survived. */
    method ExtractOrders(windowSize: int, filter: TypeFilter, split: SetFilter) returns (r: Option<History>)
      requires WellFormed(timeline) && windowSize >= 1
      ensures var P := Positions(timeline, windowSize, filter, split);
        (r.None? <==> P == []) && (r.Some? ==> Describes(timeline, windowSize, P, r.value))
    {
      var n := |timeline|;
      var left := if split == SetFilter.Both || split == Training then 0 else n / 2;
      var right := if split == SetFilter.Both || split == Testing then n else n / 2;
      assert left == Left(n, split) && right == Right(n, split);
      var h := ScanWindows(left, right, windowSize, filter);
      if |h.features| == 0 {
        r := None;
      } else {
        r := Some(h);
      }
    }
  }

  /** A position is returned exactly when it lies in the scan range and its delta passes the filter. */
  lemma {:induction false} KeptInMembers(timeline: seq<Row>, windowSize: nat, filter: TypeFilter, lo: nat, hi: int, p: int)
    requires WellFormed(timeline) && windowSize >= 1 && hi + windowSize <= |timeline|
    ensures p in KeptIn(timeline, windowSize, filter, lo, hi) <==>
      lo <= p < hi && Keeps(filter, Label(timeline, p, windowSize))
    decreases hi - lo
  {
    if hi > lo {
      KeptInMembers(timeline, windowSize, filter, lo, hi - 1, p);
    }
  }

  /** Kept positions strictly increase: the scan runs left to right. */
  lemma {:induction false} KeptInOrdered(timeline: seq<Row>, windowSize: nat, filter: TypeFilter, lo: nat, hi: int)
    requires WellFormed(timeline) && windowSize >= 1 && hi + windowSize <= |timeline|
    ensures forall k, l :: 0 <= k < l < |KeptIn(timeline, windowSize, filter, lo, hi)| ==>
      KeptIn(timeline, windowSize, filter, lo, hi)[k] < KeptIn(timeline, windowSize, filter, lo, hi)[l]
    decreases hi - lo
  {
    if hi > lo {
      KeptInOrdered(timeline, windowSize, filter, lo, hi - 1);
      var P' := KeptIn(timeline, windowSize, filter, lo, hi - 1);
      var P := KeptIn(timeline, windowSize, filter, lo, hi);
      assert P == P' || P == P' + [hi - 1];
      forall k, l | 0 <= k < l < |P| ensures P[k] < P[l] {
        if l >= |P'| {
          assert P[k] == P'[k] < hi - 1 == P[l];
        }
      }
    }
  }

  /** Without a type filter every position of [lo, hi) is kept, in order. */
  lemma {:induction false} KeptInAll(timeline: seq<Row>, windowSize: nat, lo: nat, hi: int)
    requires WellFormed(timeline) && windowSize >= 1 && hi + windowSize <= |timeline|
    ensures var P := KeptIn(timeline, windowSize, TypeFilter.Both, lo, hi);
      |P| == (if hi <= lo then 0 else hi - lo) &&
      forall k :: 0 <= k < |P| ==> P[k] == lo + k
    decreases hi - lo
  {
    if hi > lo {
      KeptInAll(timeline, windowSize, lo, hi - 1);
    }
  }

  /** The scan range of each set filter. */
  lemma ScanRange(n: nat, split: SetFilter)
    ensures split == SetFilter.Both ==> Left(n, split) == 0 && Right(n, split) == n
    ensures split == Training ==> Left(n, split) == 0 && Right(n, split) == n / 2
    ensures split == Testing ==> Left(n, split) == n / 2 && Right(n, split) == n
    ensures Left(n, split) <= Right(n, split) <= n
  {
  }

  /** A returned position p is one the loop scans, and its delta passes the filter. */
  lemma PositionsMembers(timeline: seq<Row>, windowSize: nat, filter: TypeFilter, split: SetFilter, p: int)
    requires WellFormed(timeline) && windowSize >= 1
    ensures var n := |timeline|;
      p in Positions(timeline, windowSize, filter, split) <==>
      Left(n, split) <= p < Right(n, split) - windowSize && Keeps(filter, Label(timeline, p, windowSize))
  {
    var n := |timeline|;
    KeptInMembers(timeline, windowSize, filter, Left(n, split), Right(n, split) - windowSize, p);
  }

  /** With TypeFilter.Both exactly max(0, right - left - windowSize) windows come back, one per
      scan position, in increasing order. */
  lemma CountWithoutTypeFilter(timeline: seq<Row>, windowSize: nat, split: SetFilter)
    requires WellFormed(timeline) && windowSize >= 1
    ensures var n := |timeline|;
      var l, r := Left(n, split), Right(n, split);
      var P := Positions(timeline, windowSize, TypeFilter.Both, split);
      |P| == (if r - l - windowSize <= 0 then 0 else r - l - windowSize) &&
      (forall k :: 0 <= k < |P| ==> P[k] == l + k) &&
      (split == SetFilter.Both ==> |P| == (if n <= windowSize then 0 else n - windowSize))
  {
    var n := |timeline|;
    KeptInAll(timeline, windowSize, Left(n, split), Right(n, split) - windowSize);
  }

  /** The clamp branch of the delta is unreachable: every scanned position has its forward row
      inside the timeline, so the delta is the last close-to-close step of the window. */
  lemma ClampUnreachable(timeline: seq<Row>, windowSize: nat, filter: TypeFilter, split: SetFilter, p: int)
    requires WellFormed(timeline) && windowSize >= 1
    requires p in Positions(timeline, windowSize, filter, split)
    ensures p + windowSize < |timeline|
    ensures Label(timeline, p, windowSize) ==
      timeline[p + windowSize][CLOSE] - timeline[p + windowSize - 1][CLOSE]
  {
    PositionsMembers(timeline, windowSize, filter, split, p);
  }

  /** Buys keeps only rising windows, Sells only falling ones; a zero delta survives only
      without a type filter. */
  lemma FilterBySign(timeline: seq<Row>, windowSize: nat, filter: TypeFilter, split: SetFilter, p: int)
    requires WellFormed(timeline) && windowSize >= 1
    requires p in Positions(timeline, windowSize, filter, split)
    ensures filter == Buys ==> Label(timeline, p, windowSize) > 0.0
    ensures filter == Sells ==> Label(timeline, p, windowSize) < 0.0
    ensures Label(timeline, p, windowSize) == 0.0 ==> filter == TypeFilter.Both
  {
    PositionsMembers(timeline, windowSize, filter, split, p);
  }

  /** Training windows, including the row their delta reads, lie below n/2; testing windows start
      at or after n/2; so no window is in both sets. */
  lemma TrainingTestingDisjoint(timeline: seq<Row>, windowSize: nat, filter: TypeFilter, p: int, q: int)
    requires WellFormed(timeline) && windowSize >= 1
    requires p in Positions(timeline, windowSize, filter, Training)
    requires q in Positions(timeline, windowSize, filter, Testing)
    ensures p + windowSize < |timeline| / 2 <= q
    ensures p != q
  {
    PositionsMembers(timeline, windowSize, filter, Training, p);
    PositionsMembers(timeline, windowSize, filter, Testing, q);
  }

  /** Ten rows with strictly rising closes and a window of three give seven windows, each labelled
      with the positive close-to-close step that follows it. */
  lemma RisingTimelineScenario(timeline: seq<Row>)
    requires WellFormed(timeline) && |timeline| == 10
    requires forall i :: 0 < i < 10 ==> timeline[i - 1][CLOSE] < timeline[i][CLOSE]
    ensures var P := Positions(timeline, 3, TypeFilter.Both, SetFilter.Both);
      |P| == 7 &&
      forall k :: 0 <= k < 7 ==>
        (P[k] == k && Label(timeline, k, 3) == timeline[k + 3][CLOSE] - timeline[k + 2][CLOSE] > 0.0)
  {
    CountWithoutTypeFilter(timeline, 3, SetFilter.Both);
  }
}
