/** The state every streaming agent owns: two balances, a window size and six bounded FIFO
    windows of prices, one per kind of market message. */
module BaseAgent {
  import opened Optional

  /** A double-ended queue of prices; the agent only removes at the front and offers at the back. */
  class Deque {
    var items: seq<real>

    constructor ()
      ensures items == []
    {
      items := [];
    }
  }

  /** What incrementWindow does to a window's contents: drop the oldest entry when the window is
      exactly full, then append. None where removing from an empty deque throws. */
  function Slide(w: seq<real>, windowSize: int, v: real): Option<seq<real>>
  {
    if |w| == windowSize then
      if w == [] then None else Some(w[1..] + [v])
    else Some(w + [v])
  }

  class BaseAgent {
    var myUSD: real
    var myBTC: real
    var myWindowSize: int

    // MATCH messages
    const matches: Deque
    // RECEIVED messages
    const buys: Deque
    const sells: Deque
    // OPEN messages
    const opens: Deque
    // DONE messages
    const cancelled: Deque
    const completed: Deque

    ghost function Windows(): seq<Deque>
    {
      [matches, buys, sells, opens, cancelled, completed]
    }

    /** The six windows are six different deques. */
    ghost predicate Valid()
    {
      forall i, j :: 0 <= i < j < |Windows()| ==> Windows()[i] != Windows()[j]
    }

    constructor (initialUSD: real, initialBTC: real, windowSize: int)
      ensures Valid()
      ensures myUSD == initialUSD && myBTC == initialBTC && myWindowSize == windowSize
      ensures forall d :: d in Windows() ==> fresh(d) && d.items == []
    {
      myUSD := initialUSD;
      myBTC := initialBTC;
      myWindowSize := windowSize;
      matches := new Deque();
      buys := new Deque();
      sells := new Deque();
      opens := new Deque();
      cancelled := new Deque();
      completed := new Deque();
    }

    /** The window size given to the constructor; no method of the agent writes it. */
    function GetWindowSize(): (r: int)
      reads this
      ensures r == myWindowSize
    {
      myWindowSize
    }

    /** Pushes value into w, evicting the oldest entry once w holds windowSize entries. Returns
        false where the source throws: w is empty and the window size is 0. Only w changes. */
    method IncrementWindow(w: Deque, value: real) returns (ok: bool)
      modifies w
      ensures ok <==> Slide(old(w.items), myWindowSize, value).Some?
      ensures w.items == if ok then Slide(old(w.items), myWindowSize, value).value else old(w.items)
      ensures myUSD == old(myUSD) && myBTC == old(myBTC) && myWindowSize == old(myWindowSize)
    {
      if |w.items| == GetWindowSize() {
        if w.items == [] {
          return false;
        }
        w.items := w.items[1..];
      }
      w.items := w.items + [value];
      ok := true;
    }
  }

  /** After a successful push the value is the newest entry, and the contents are the old ones
      with the value appended, minus the oldest entry when the window was full. */
  lemma SlideContents(w: seq<real>, windowSize: int, v: real)
    requires Slide(w, windowSize, v).Some?
    ensures var w' := Slide(w, windowSize, v).value;
      w' != [] && w'[|w'| - 1] == v &&
      (|w| < windowSize ==> w' == w + [v]) &&
      (|w| == windowSize ==> w' == w[1..] + [v])
  {
  }

  /** With a window size of at least one every push succeeds and keeps the window within its
      size. */
  lemma SlideBounded(w: seq<real>, windowSize: int, v: real)
    requires windowSize >= 1 && |w| <= windowSize
    ensures Slide(w, windowSize, v).Some?
    ensures |Slide(w, windowSize, v).value| <= windowSize
  {
  }

  /** With a window size of zero the first push removes from an empty deque and fails. */
  lemma SlideZeroFails(v: real)
    ensures Slide([], 0, v).None?
  {
  }

  /** Pushing n values into an empty window of size windowSize >= 1 keeps the last
      min(n, windowSize) of them. */
  lemma {:induction false} SlideKeepsNewest(vs: seq<real>, windowSize: int)
    requires windowSize >= 1
    ensures SlideAll([], windowSize, vs).Some?
    ensures var w := SlideAll([], windowSize, vs).value;
      |w| == (if |vs| < windowSize then |vs| else windowSize) && w == vs[|vs| - |w|..]
  {
    if vs != [] {
      var vs' := vs[..|vs| - 1];
      SlideKeepsNewest(vs', windowSize);
      var w' := SlideAll([], windowSize, vs').value;
      assert vs == vs' + [vs[|vs| - 1]];
      if |w'| == windowSize {
        assert w'[1..] + [vs[|vs| - 1]] == vs[|vs| - windowSize..];
      } else {
        assert w' + [vs[|vs| - 1]] == vs[|vs| - |w'| - 1..];
      }
    }
  }

  /** Pushes every value of vs in turn; None as soon as one push fails. */
  function SlideAll(w: seq<real>, windowSize: int, vs: seq<real>): Option<seq<real>>
  {
    if vs == [] then Some(w)
    else match SlideAll(w, windowSize, vs[..|vs| - 1])
      case None => None
      case Some(w') => Slide(w', windowSize, vs[|vs| - 1])
  }
}
