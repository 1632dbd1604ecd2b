/** The older streaming agent: unbounded-by-size lists capped at MEMORY entries, and on every
    match the price is pushed first and the decision taken afterwards. */
module LegacyPeerPressure {
  import opened RealSeq
  import opened Trading

  /** How many prices each list keeps. */
  const MEMORY: int := 1000

  /** Append, then drop the oldest entry once the list holds more than MEMORY prices. */
  function Remember(w: seq<real>, v: real): seq<real>
  {
    if |w + [v]| > MEMORY then (w + [v])[1..] else w + [v]
  }

  /** onWebSocketText on an already-parsed message. No path of the handler raises once the
      message is parsed. */
  function LegacyHandle(s: AgentState, e: Event): AgentState
  {
    if e.kind.Error? || e.price == 0.0 then s
    else match e.kind
      case Match =>
        var m := Remember(s.matches, e.price);
        s.(matches := m, position := Decide(s.position, m, s.buys, s.sells))
      case Received =>
        (match e.side
          case Buy => s.(buys := Remember(s.buys, e.price))
          case Sell => s.(sells := Remember(s.sells, e.price))
          case OtherSide(_) => s)
      case _ => s
  }

  function LegacyHandleAll(s: AgentState, es: seq<Event>): AgentState
    decreases |es|
  {
    if es == [] then s else LegacyHandleAll(LegacyHandle(s, es[0]), es[1..])
  }

  class LegacyPeerPressureAgent {
    var myUSD: real
    var myBTC: real
    var matches: seq<real>
    var buys: seq<real>
    var sells: seq<real>
    var opens: seq<real>
    var cancelled: seq<real>
    var completed: seq<real>

    function State(): AgentState
      reads this
    {
      AgentState(Position(myUSD, myBTC), matches, buys, sells)
    }

    constructor (initialUSD: int, initialBTC: int)
      ensures State() == AgentState(Position(initialUSD as real, initialBTC as real), [], [], [])
      ensures opens == [] && cancelled == [] && completed == []
    {
      myUSD := initialUSD as real;
      myBTC := initialBTC as real;
      matches := [];
      buys := [];
      sells := [];
      opens := [];
      cancelled := [];
      completed := [];
    }

    /** makeDecision: rewrites the balances by the crossover rule on the current lists. */
    method MakeDecision()
      requires LastNonZero(matches)
      modifies this`myUSD, this`myBTC
      ensures Position(myUSD, myBTC) == Decide(old(Position(myUSD, myBTC)), matches, buys, sells)
    {
      var q := ComputeDecision(Position(myUSD, myBTC), matches, buys, sells);
      myUSD := q.usd;
      myBTC := q.btc;
    }

    /** The message handler; the open and done lists are never touched. */
    method OnEvent(e: Event)
      modifies this`myUSD, this`myBTC, this`matches, this`buys, this`sells
      ensures State() == LegacyHandle(old(State()), e)
    {
      if e.kind.Error? {
        return;
      }
      if e.price != 0.0 {
        if e.kind.Match? {
          matches := matches + [e.price];
          if |matches| > MEMORY {
            matches := matches[1..];
          }
          MakeDecision();
        } else if e.kind.Received? {
          if e.side.Buy? {
            buys := buys + [e.price];
            if |buys| > MEMORY {
              buys := buys[1..];
            }
          } else if e.side.Sell? {
            sells := sells + [e.price];
            if |sells| > MEMORY {
              sells := sells[1..];
            }
          }
        } else {
          return;
        }
      }
    }
  }

  /** A remembered price is the newest entry, the list never exceeds MEMORY once it starts
      within it, and it keeps the newest prices in order. */
  lemma RememberBounded(w: seq<real>, v: real)
    requires |w| <= MEMORY
    ensures var w' := Remember(w, v);
      |w'| <= MEMORY && w'[|w'| - 1] == v &&
      (|w| < MEMORY ==> w' == w + [v]) &&
      (|w| == MEMORY ==> w' == w[1..] + [v])
  {
  }

  /** Errors, zero prices and message types other than match and received change nothing. */
  lemma LegacyHandleIgnores(s: AgentState, e: Event)
    requires e.kind.Error? || e.price == 0.0 || e.kind.OtherType? ||
      (e.kind.Received? && e.side.OtherSide?)
    ensures LegacyHandle(s, e) == s
  {
  }

  /** A match is pushed before the decision, so the decision trades at the incoming price and
      keeps the portfolio's value at that price. */
  lemma LegacyTradesAtIncomingPrice(s: AgentState, e: Event)
    requires e.kind.Match? && e.price != 0.0
    ensures var t := LegacyHandle(s, e);
      t.matches != [] && t.matches[|t.matches| - 1] == e.price &&
      t.position.usd + t.position.btc * e.price == s.position.usd + s.position.btc * e.price
  {
    var m := Remember(s.matches, e.price);
    DecidePreservesValue(s.position, m, s.buys, s.sells);
  }

  ghost predicate WithinMemory(s: AgentState)
  {
    |s.matches| <= MEMORY && |s.buys| <= MEMORY && |s.sells| <= MEMORY
  }

  /** No list ever holds more than MEMORY prices. */
  lemma {:induction false} LegacyHandleAllWithinMemory(s: AgentState, es: seq<Event>)
    requires WithinMemory(s)
    ensures WithinMemory(LegacyHandleAll(s, es))
    decreases |es|
  {
    if es != [] {
      var e := es[0];
      RememberBounded(s.matches, e.price);
      RememberBounded(s.buys, e.price);
      RememberBounded(s.sells, e.price);
      LegacyHandleAllWithinMemory(LegacyHandle(s, e), es[1..]);
    }
  }

  /** The same four messages that leave the bounded-window agent at 7 USD and 0.03 BTC: here the
      first match already trades, since it is in the window it is judged on, and the match at 90
      then pulls the match average below the orders and sells BTC_LOT at 90. */
  lemma LegacyTieThenSell()
    ensures LegacyHandleAll(AgentState(Position(10.0, 0.0), [], [], []),
      [Event(Received, 100.0, Buy), Event(Received, 100.0, Sell), Event(Match, 100.0, Buy),
       Event(Match, 90.0, Sell)]) ==
      AgentState(Position(8.08, 0.018), [100.0, 90.0], [100.0], [100.0])
  {
    var none: seq<real> := [];
    assert none + [100.0] == [100.0];
    assert [100.0] + [90.0] == [100.0, 90.0];
    var es := [Event(Received, 100.0, Buy), Event(Received, 100.0, Sell), Event(Match, 100.0, Buy),
       Event(Match, 90.0, Sell)];
    var s1 := AgentState(Position(10.0, 0.0), [], [100.0], []);
    var s2 := AgentState(Position(10.0, 0.0), [], [100.0], [100.0]);
    var s3 := AgentState(Position(7.0, 0.03), [100.0], [100.0], [100.0]);
    assert LegacyHandle(AgentState(Position(10.0, 0.0), [], [], []), es[0]) == s1;
    assert LegacyHandle(s1, es[1]) == s2;
    assert Average([100.0]) == 100.0;
    assert LegacyHandle(s2, es[2]) == s3;
    assert Sum([100.0, 90.0]) == 190.0 by {
      assert [100.0, 90.0][..1] == [100.0];
    }
    assert Average([100.0, 90.0]) == 95.0;
    assert LegacyHandle(s3, es[3]) == AgentState(Position(8.08, 0.018), [100.0, 90.0], [100.0], [100.0]);
    assert es[1..][1..][1..][1..] == [];
  }
}
