/** The debug log's tag column: a fixed map from tag to whether that tag is logged, a padding width
    that starts out as "not aligned", and the left padding applied to tags once aligned. */
module Debug {

  const IPUTILS: string := "IPUTILS"
  const LAN: string := "LAN"
  const MAIN: string := "MAIN"
  const QR: string := "QR"
  const SERVER: string := "SERVER"
  const DEBUG: string := "DEBUG"

  /** The width before alignTags runs: the user does not want aligned logs. */
  const NOT_ALIGNED: int := -1

  /** DebugMap: every tag is logged. */
  function DebugMap(): (m: map<string, bool>)
    ensures m.Keys == {IPUTILS, LAN, MAIN, QR, SERVER, DEBUG}
    ensures forall k :: k in m ==> m[k]
  {
    map[IPUTILS := true, LAN := true, MAIN := true, QR := true, SERVER := true, DEBUG := true]
  }

  function Spaces(n: nat): (r: string)
    ensures |r| == n && forall i :: 0 <= i < n ==> r[i] == ' '
  {
    seq(n, _ => ' ')
  }

  /** What padString builds: desiredLength - |str| - 1 spaces (none when that is not positive),
      then str. */
  function Padded(str: string, desiredLength: int): string
  {
    var padding := desiredLength - |str| - 1;
    Spaces(if padding > 0 then padding else 0) + str
  }

  /** padString: appends the padding one space at a time, then the string. A negative capacity
      makes the builder throw, so desiredLength is at least 0. */
  method PadString(str: string, desiredLength: int) returns (r: string)
    requires desiredLength >= 0
    ensures r == Padded(str, desiredLength)
  {
    var builder := "";
    var padding := desiredLength - |str| - 1;
    var i := 0;
    while i < padding
      invariant 0 <= i <= (if padding > 0 then padding else 0)
      invariant builder == Spaces(i)
    {
      builder := builder + " ";
      i := i + 1;
    }
    builder := builder + str;
    r := builder;
  }

  /** The padded string ends with str and has only spaces before it; it is max(|str|, d - 1)
      long, and str itself when d <= |str| + 1. */
  lemma PaddedShape(str: string, d: int)
    ensures var r := Padded(str, d);
      |r| == (if d - 1 > |str| then d - 1 else |str|) &&
      r[|r| - |str|..] == str &&
      (forall i :: 0 <= i < |r| - |str| ==> r[i] == ' ') &&
      (d <= |str| + 1 ==> r == str)
  {
    var r := Padded(str, d);
    var padding := d - |str| - 1;
    var p := if padding > 0 then padding else 0;
    assert r == Spaces(p) + str;
    assert r[p..] == str;
  }

  /** After alignTags the width is the larger of the old width and the longest logged tag. */
  ghost predicate IsAligned(width: int, tagMap: map<string, bool>, before: int)
  {
    width >= before &&
    (forall k :: k in tagMap && tagMap[k] ==> |k| <= width) &&
    (width == before || exists k :: k in tagMap && tagMap[k] && |k| == width)
  }

  /** That describes one width only. */
  lemma IsAlignedUnique(w1: int, w2: int, tagMap: map<string, bool>, before: int)
    requires IsAligned(w1, tagMap, before) && IsAligned(w2, tagMap, before)
    ensures w1 == w2
  {
  }

  /** Aligning again changes nothing. */
  lemma AlignIdempotent(w: int, w': int, tagMap: map<string, bool>, before: int)
    requires IsAligned(w, tagMap, before) && IsAligned(w', tagMap, w)
    ensures w' == w
  {
    assert IsAligned(w, tagMap, w);
  }

  /** With the fixed map and the initial NOT_ALIGNED width, alignTags settles on 7, the length
      of "IPUTILS". */
  lemma FixedMapAlignsToSeven(w: int)
    requires IsAligned(w, DebugMap(), NOT_ALIGNED)
    ensures w == 7
  {
    var m := DebugMap();
    assert IPUTILS in m && |IPUTILS| == 7;
    assert forall k :: k in m ==> |k| <= 7;
  }

  class Debug {
    const tagMap: map<string, bool>
    var maxTagLength: int

    constructor ()
      ensures tagMap == DebugMap() && maxTagLength == NOT_ALIGNED
    {
      tagMap := DebugMap();
      maxTagLength := NOT_ALIGNED;
    }

    /** alignTags: walks the entries in some order and raises the width to every longer logged
        tag. */
    method AlignTags()
      modifies this`maxTagLength
      ensures IsAligned(maxTagLength, tagMap, old(maxTagLength))
    {
      var remaining := tagMap.Keys;
      while remaining != {}
        invariant remaining <= tagMap.Keys
        invariant maxTagLength >= old(maxTagLength)
        invariant forall k :: k in tagMap && k !in remaining && tagMap[k] ==> |k| <= maxTagLength
        invariant maxTagLength == old(maxTagLength) ||
          exists k :: k in tagMap && tagMap[k] && |k| == maxTagLength
        decreases remaining
      {
        var key :| key in remaining;
        if tagMap[key] && |key| > maxTagLength {
          maxTagLength := |key|;
        }
        remaining := remaining - {key};
      }
    }
  }

  /** padString as written pads every tag but the longest to one less than the width: after
      aligning the fixed map, "QR" comes out 6 characters wide and "IPUTILS" 7, so the colons
      after them do not line up. */
  lemma PadStringMisaligns()
    ensures |Padded(QR, 7)| == 6 && |Padded(IPUTILS, 7)| == 7
  {
    PaddedShape(QR, 7);
    PaddedShape(IPUTILS, 7);
  }

  /** The padding evidently intended: d - |str| spaces, so that every tag no longer than the
      width comes out exactly d wide. */
  function PaddedExact(str: string, desiredLength: int): string
  {
    var padding := desiredLength - |str|;
    Spaces(if padding > 0 then padding else 0) + str
  }

  /** Every tag no longer than the width is padded to exactly the width and ends in the tag;
      with the fixed map aligned to 7 every tag comes out 7 wide. */
  lemma PaddedExactAligns(str: string, d: int)
    requires |str| <= d
    ensures |PaddedExact(str, d)| == d && PaddedExact(str, d)[d - |str|..] == str
    ensures forall k :: k in DebugMap() ==> |PaddedExact(k, 7)| == 7
  {
    var p := d - |str|;
    assert PaddedExact(str, d) == Spaces(p) + str;
    assert (Spaces(p) + str)[p..] == str;
    assert forall k :: k in DebugMap() ==> |k| <= 7;
  }
}
