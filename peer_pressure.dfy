/** The streaming agent over bounded windows: on every match it decides on the windows as they
    stand and only then pushes the price; received orders go to the buy or sell window. */
module PeerPressure {
  import opened Optional
  import opened Trading
  import BaseAgent

  /** onWebSocketText on values. The flag is false where the source lets an exception escape
      (a full window of size zero); the decision already taken then stays taken. */
  function Handle(s: AgentState, windowSize: int, e: Event): (r: (AgentState, bool))
    requires LastNonZero(s.matches)
    ensures LastNonZero(r.0.matches)
    ensures r.0.matches == s.matches || (r.0.matches != [] && r.0.matches[|r.0.matches| - 1] == e.price)
  {
    if e.kind.Error? || e.price == 0.0 then (s, true)
    else match e.kind
      case Match =>
        var p := Decide(s.position, s.matches, s.buys, s.sells);
        (match BaseAgent.Slide(s.matches, windowSize, e.price)
          case None => (s.(position := p), false)
          case Some(m) => (s.(position := p, matches := m), true))
      case Received =>
        (match e.side
          case Buy =>
            (match BaseAgent.Slide(s.buys, windowSize, e.price)
              case None => (s, false)
              case Some(b) => (s.(buys := b), true))
          case Sell =>
            (match BaseAgent.Slide(s.sells, windowSize, e.price)
              case None => (s, false)
              case Some(w) => (s.(sells := w), true))
          case OtherSide(_) => (s, true))
      case _ => (s, true)
  }

  /** A stream of events handled in order; handling stops at the first escaped exception. */
  function HandleAll(s: AgentState, windowSize: int, es: seq<Event>): (r: (AgentState, bool))
    requires LastNonZero(s.matches)
    ensures LastNonZero(r.0.matches)
    decreases |es|
  {
    if es == [] then (s, true)
    else
      var (s', ok) := Handle(s, windowSize, es[0]);
      if ok then HandleAll(s', windowSize, es[1..]) else (s', false)
  }

  class PeerPressureAgent {
    const base: BaseAgent.BaseAgent

    /** The windows are distinct and no zero price ever reaches the match window. */
    ghost predicate Valid()
      reads this, base, base.matches
    {
      base.Valid() && LastNonZero(base.matches.items)
    }

    ghost function State(): AgentState
      reads this, base, base.matches, base.buys, base.sells
    {
      AgentState(Position(base.myUSD, base.myBTC), base.matches.items, base.buys.items, base.sells.items)
    }

    constructor (initialUSD: int, initialBTC: int, windowSize: int)
      ensures Valid() && fresh(base)
      ensures State() == AgentState(Position(initialUSD as real, initialBTC as real), [], [], [])
      ensures base.myWindowSize == windowSize
    {
      base := new BaseAgent.BaseAgent(initialUSD as real, initialBTC as real, windowSize);
    }

    /** makeDecision: rewrites the balances by the crossover rule on the current windows. */
    method MakeDecision()
      requires Valid()
      modifies base`myUSD, base`myBTC
      ensures Position(base.myUSD, base.myBTC) ==
        Decide(old(Position(base.myUSD, base.myBTC)), base.matches.items, base.buys.items, base.sells.items)
    {
      var q := ComputeDecision(Position(base.myUSD, base.myBTC), base.matches.items, base.buys.items, base.sells.items);
      base.myUSD := q.usd;
      base.myBTC := q.btc;
    }

    /** The message handler on an already-parsed message; the open and done windows and the
        window size are never touched. */
    method OnEvent(e: Event) returns (ok: bool)
      requires Valid()
      modifies base`myUSD, base`myBTC, base.matches, base.buys, base.sells
      ensures Valid()
      ensures (State(), ok) == Handle(old(State()), base.myWindowSize, e)
      ensures base.myWindowSize == old(base.myWindowSize)
    {
      assert base.Windows()[0] != base.Windows()[1] && base.Windows()[0] != base.Windows()[2] &&
        base.Windows()[1] != base.Windows()[2];
      ok := true;
      if e.kind.Error? {
        return;
      }
      if e.price != 0.0 {
        if e.kind.Match? {
          MakeDecision();
          ok := base.IncrementWindow(base.matches, e.price);
        } else if e.kind.Received? {
          if e.side.Buy? {
            ok := base.IncrementWindow(base.buys, e.price);
          } else if e.side.Sell? {
            ok := base.IncrementWindow(base.sells, e.price);
          }
        } else {
          return;
        }
      }
    }
  }

  /** Errors, zero prices and message types other than match and received change nothing. */
  lemma HandleIgnores(s: AgentState, windowSize: int, e: Event)
    requires LastNonZero(s.matches)
    requires e.kind.Error? || e.price == 0.0 || e.kind.OtherType? ||
      (e.kind.Received? && e.side.OtherSide?)
    ensures Handle(s, windowSize, e) == (s, true)
  {
  }

  /** A match is judged on the windows as they were before its own price arrives, so the very
      first match never trades. */
  lemma MatchDecidesBeforePush(s: AgentState, windowSize: int, e: Event)
    requires LastNonZero(s.matches)
    requires e.kind.Match? && e.price != 0.0
    ensures Handle(s, windowSize, e).0.position == Decide(s.position, s.matches, s.buys, s.sells)
    ensures s.matches == [] ==> Handle(s, windowSize, e).0.position == s.position
  {
  }

  /** A received order only pushes its price into the window of its side; a match only changes
      the balances and the match window. */
  lemma HandleRoutes(s: AgentState, windowSize: int, e: Event)
    requires LastNonZero(s.matches)
    requires e.price != 0.0
    ensures var (t, ok) := Handle(s, windowSize, e);
      (e.kind.Received? && e.side.Buy? ==>
        t.position == s.position && t.matches == s.matches && t.sells == s.sells &&
        (ok <==> BaseAgent.Slide(s.buys, windowSize, e.price).Some?) &&
        (ok ==> t.buys == BaseAgent.Slide(s.buys, windowSize, e.price).value)) &&
      (e.kind.Received? && e.side.Sell? ==>
        t.position == s.position && t.matches == s.matches && t.buys == s.buys &&
        (ok <==> BaseAgent.Slide(s.sells, windowSize, e.price).Some?) &&
        (ok ==> t.sells == BaseAgent.Slide(s.sells, windowSize, e.price).value)) &&
      (e.kind.Match? ==>
        t.buys == s.buys && t.sells == s.sells &&
        (ok <==> BaseAgent.Slide(s.matches, windowSize, e.price).Some?) &&
        (ok ==> t.matches == BaseAgent.Slide(s.matches, windowSize, e.price).value))
  {
  }

  ghost predicate Bounded(s: AgentState, windowSize: int)
  {
    |s.matches| <= windowSize && |s.buys| <= windowSize && |s.sells| <= windowSize
  }

  /** With a window size of at least one no message raises, and every window stays within the
      window size. */
  lemma HandleKeepsBounded(s: AgentState, windowSize: int, e: Event)
    requires LastNonZero(s.matches) && windowSize >= 1 && Bounded(s, windowSize)
    ensures Handle(s, windowSize, e).1
    ensures Bounded(Handle(s, windowSize, e).0, windowSize)
  {
    BaseAgent.SlideBounded(s.matches, windowSize, e.price);
    BaseAgent.SlideBounded(s.buys, windowSize, e.price);
    BaseAgent.SlideBounded(s.sells, windowSize, e.price);
  }

  /** ... and so does a stream of messages. */
  lemma {:induction false} HandleAllKeepsBounded(s: AgentState, windowSize: int, es: seq<Event>)
    requires LastNonZero(s.matches) && windowSize >= 1 && Bounded(s, windowSize)
    ensures HandleAll(s, windowSize, es).1
    ensures Bounded(HandleAll(s, windowSize, es).0, windowSize)
    decreases |es|
  {
    if es != [] {
      HandleKeepsBounded(s, windowSize, es[0]);
      HandleAllKeepsBounded(Handle(s, windowSize, es[0]).0, windowSize, es[1..]);
    }
  }

  /** A buy order, a sell order and a match at 100 leave the averages tied, so the match at 90
      that follows spends USD_LOT at the last match price 100. */
  lemma TieThenSpend()
    ensures HandleAll(AgentState(Position(10.0, 0.0), [], [], []), 2,
      [Event(Received, 100.0, Buy), Event(Received, 100.0, Sell), Event(Match, 100.0, Buy),
       Event(Match, 90.0, Sell)]) ==
      (AgentState(Position(7.0, 0.03), [100.0, 90.0], [100.0], [100.0]), true)
  {
    var s0 := AgentState(Position(10.0, 0.0), [], [], []);
    var es := [Event(Received, 100.0, Buy), Event(Received, 100.0, Sell), Event(Match, 100.0, Buy),
       Event(Match, 90.0, Sell)];
    var s1 := AgentState(Position(10.0, 0.0), [], [100.0], []);
    var s2 := AgentState(Position(10.0, 0.0), [], [100.0], [100.0]);
    var s3 := AgentState(Position(10.0, 0.0), [100.0], [100.0], [100.0]);
    var none: seq<real> := [];
    assert none + [100.0] == [100.0];
    assert Handle(s0, 2, es[0]) == (s1, true);
    assert Handle(s1, 2, es[1]) == (s2, true);
    assert Handle(s2, 2, es[2]) == (s3, true);
    assert Average([100.0]) == 100.0;
    assert Decide(Position(10.0, 0.0), [100.0], [100.0], [100.0]) == Position(7.0, 0.03);
    assert [100.0] + [90.0] == [100.0, 90.0];
    assert Handle(s3, 2, es[3]) == (AgentState(Position(7.0, 0.03), [100.0, 90.0], [100.0], [100.0]), true);
    assert es[1..][1..][1..][1..] == [];
  }
}
