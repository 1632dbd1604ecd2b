/** What both peer-pressure agents share: the already-parsed market event, the two balances and
    the moving-average crossover rule that trades between them. */
module Trading {
  import opened RealSeq

  /** The message types of the feed; any type other than match, received or error is OtherType. */
  datatype EventType = Match | Received | Error | OtherType(name: string)

  /** The side of an order; any string other than buy or sell is OtherSide. */
  datatype Side = Buy | Sell | OtherSide(name: string)

  /** A feed message after JSON parsing: its type, price and side. */
  datatype Event = Event(kind: EventType, price: real, side: Side)

  /** The agent's balances. */
  datatype Position = Position(usd: real, btc: real)

  /** Sell this much BTC when the market leans up. */
  const BTC_LOT: real := 0.012
  /** Spend this many USD when it does not. */
  const USD_LOT: real := 3.0

  /** The windows a decision reads and the position it rewrites. */
  datatype AgentState = AgentState(position: Position, matches: seq<real>, buys: seq<real>, sells: seq<real>)

  predicate LastNonZero(w: seq<real>)
  {
    w == [] || w[|w| - 1] != 0.0
  }

  function Average(w: seq<real>): real
    requires w != []
  {
    Sum(w) / |w| as real
  }

  /** makeDecision on values: nothing unless all three windows hold prices; then sell BTC_LOT at
      the last match price when the mean of the buy and sell averages exceeds the match average
      and BTC exceeds BTC_LOT, and otherwise spend USD_LOT at that price when USD exceeds
      USD_LOT. */
  function Decide(p: Position, matches: seq<real>, buys: seq<real>, sells: seq<real>): Position
    requires LastNonZero(matches)
  {
    if matches != [] && sells != [] && buys != [] then
      var last := matches[|matches| - 1];
      if (Average(buys) + Average(sells)) / 2.0 > Average(matches) then
        if p.btc > BTC_LOT then Position(p.usd + last * BTC_LOT, p.btc - BTC_LOT) else p
      else
        if p.usd > USD_LOT then Position(p.usd - USD_LOT, p.btc + USD_LOT / last) else p
    else p
  }

  /** The decision as makeDecision computes it: three summing loops, then the branch on the
      averages. */
  method ComputeDecision(p: Position, matches: seq<real>, buys: seq<real>, sells: seq<real>) returns (q: Position)
    requires LastNonZero(matches)
    ensures q == Decide(p, matches, buys, sells)
  {
    q := p;
    if |matches| != 0 && |sells| != 0 && |buys| != 0 {
      var matchTotal := Total(matches);
      var avgMatchPrice := matchTotal / |matches| as real;
      var buyTotal := Total(buys);
      var avgBuyPrice := buyTotal / |buys| as real;
      var sellTotal := Total(sells);
      var avgSellPrice := sellTotal / |sells| as real;
      var last := matches[|matches| - 1];
      if (avgBuyPrice + avgSellPrice) / 2.0 > avgMatchPrice {
        if q.btc > BTC_LOT {
          q := q.(btc := q.btc - BTC_LOT);
          q := q.(usd := q.usd + last * BTC_LOT);
        }
      } else {
        if q.usd > USD_LOT {
          q := q.(usd := q.usd - USD_LOT);
          q := q.(btc := q.btc + USD_LOT / last);
        }
      }
    }
  }

  /** No trade happens unless the match, buy and sell windows all hold prices. */
  lemma DecideIdleOnEmptyWindow(p: Position, matches: seq<real>, buys: seq<real>, sells: seq<real>)
    requires LastNonZero(matches)
    requires matches == [] || buys == [] || sells == []
    ensures Decide(p, matches, buys, sells) == p
  {
  }

  /** A decision either changes nothing, or debits exactly BTC_LOT from a BTC balance that
      exceeded it and credits its price in USD, or debits exactly USD_LOT from a USD balance that
      exceeded it and credits what it buys in BTC: at most one balance is debited. */
  lemma DecideDebitsAtMostOne(p: Position, matches: seq<real>, buys: seq<real>, sells: seq<real>)
    requires LastNonZero(matches)
    ensures var q := Decide(p, matches, buys, sells);
      q == p ||
      (matches != [] && p.btc > BTC_LOT && q.btc == p.btc - BTC_LOT &&
       q.usd == p.usd + matches[|matches| - 1] * BTC_LOT) ||
      (matches != [] && p.usd > USD_LOT && q.usd == p.usd - USD_LOT &&
       q.btc == p.btc + USD_LOT / matches[|matches| - 1])
  {
  }

  /** Every trade is at the last match price, so the portfolio's value at that price,
      usd + btc * last, is the same before and after a decision. */
  lemma DecidePreservesValue(p: Position, matches: seq<real>, buys: seq<real>, sells: seq<real>)
    requires matches != [] && LastNonZero(matches)
    ensures var q := Decide(p, matches, buys, sells);
      var last := matches[|matches| - 1];
      q.usd + q.btc * last == p.usd + p.btc * last
  {
    var last := matches[|matches| - 1];
    var q := Decide(p, matches, buys, sells);
    if q != p && q.btc < p.btc {
      assert q.usd + q.btc * last == p.usd + last * BTC_LOT + (p.btc - BTC_LOT) * last;
    } else if q != p {
      assert q.btc * last == p.btc * last + (USD_LOT / last) * last;
    }
  }

  /** Equal averages are not a crossover: matches [100], buys [101] and sells [99] take the
      spending branch. */
  lemma DecideTieBuys(p: Position)
    ensures Decide(p, [100.0], [101.0], [99.0]) ==
      if p.usd > USD_LOT then Position(p.usd - USD_LOT, p.btc + USD_LOT / 100.0) else p
  {
    assert Average([100.0]) == 100.0 && Average([101.0]) == 101.0 && Average([99.0]) == 99.0;
  }
}
