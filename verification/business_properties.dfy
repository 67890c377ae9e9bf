/** What one GetRich invocation promises, stated over `Evaluate`. */
module BusinessProperties {
  import opened Wrappers
  import opened Service
  import opened Business

  /** Some call in `calls` throws against `market`. */
  ghost predicate SomeCallThrows(market: Market, calls: seq<StockCall>) {
    exists i :: 0 <= i < |calls| && FailureOf(market, calls[i]).Some?
  }

  /** After a sell, a fall to 85% of the last price or below buys 200 shares
      exactly once and returns Buy's answer unchanged, null included; Sell is
      never called, and Log only if Buy itself throws. */
  lemma BuyAfterFall(market: Market, ticker: string, last: Trade, currentPrice: real)
    requires market.lastTrade(ticker) == Success(Some(last))
    requires market.currentPrice(ticker) == Success(currentPrice)
    requires last.side == Some(SellSide) && last.tradePrice.Some?
    requires currentPrice <= 0.85 * last.tradePrice.value
    ensures var r := Evaluate(market, ticker);
      r.stockCalls == [GetLastTradeCall(ticker), GetCurrentPriceCall(ticker), BuyCall(ticker, Quantity)]
      && CountOf(r.stockCalls, BuyOp) == 1 && CountOf(r.stockCalls, SellOp) == 0
      && (market.buy(ticker, Quantity).Success? ==> r.trade == market.buy(ticker, Quantity).value && r.logged == [])
      && (market.buy(ticker, Quantity).Failure? ==> r.trade == Some(NoTrade(ticker)) && r.logged == [market.buy(ticker, Quantity).error])
  {
    CountOfAppend([GetLastTradeCall(ticker), GetCurrentPriceCall(ticker)], [BuyCall(ticker, Quantity)], BuyOp);
  }

  /** After anything but a sell, a rise to 115% of the last price or above
      sells 200 shares exactly once and returns Sell's answer unchanged, null
      included; Buy is never called, and Log only if Sell itself throws. */
  lemma SellAfterRise(market: Market, ticker: string, last: Trade, currentPrice: real)
    requires market.lastTrade(ticker) == Success(Some(last))
    requires market.currentPrice(ticker) == Success(currentPrice)
    requires last.side != Some(SellSide) && last.tradePrice.Some?
    requires currentPrice >= 1.15 * last.tradePrice.value
    ensures var r := Evaluate(market, ticker);
      r.stockCalls == [GetLastTradeCall(ticker), GetCurrentPriceCall(ticker), SellCall(ticker, Quantity)]
      && CountOf(r.stockCalls, SellOp) == 1 && CountOf(r.stockCalls, BuyOp) == 0
      && (market.sell(ticker, Quantity).Success? ==> r.trade == market.sell(ticker, Quantity).value && r.logged == [])
      && (market.sell(ticker, Quantity).Failure? ==> r.trade == Some(NoTrade(ticker)) && r.logged == [market.sell(ticker, Quantity).error])
  {
    CountOfAppend([GetLastTradeCall(ticker), GetCurrentPriceCall(ticker)], [SellCall(ticker, Quantity)], SellOp);
  }

  /** When neither threshold is met, no order is placed, nothing is logged,
      and the result is the "none" trade for the input ticker with no price
      and no date. */
  lemma HoldBelowThresholds(market: Market, ticker: string, last: Trade, currentPrice: real)
    requires market.lastTrade(ticker) == Success(Some(last))
    requires market.currentPrice(ticker) == Success(currentPrice)
    requires !(last.side == Some(SellSide) && last.tradePrice.Some? && currentPrice <= 0.85 * last.tradePrice.value)
    requires !(last.side != Some(SellSide) && last.tradePrice.Some? && currentPrice >= 1.15 * last.tradePrice.value)
    ensures var r := Evaluate(market, ticker);
      r.trade.Some? && r.trade.value.ticker == ticker && r.trade.value.side == Some("none")
      && r.trade.value.tradePrice.None? && r.trade.value.tradeDate.None?
      && OrderCount(r.stockCalls) == 0 && r.logged == []
  {
  }

  /** A null last price makes both lifted comparisons false: no order and no log. */
  lemma NullLastPriceHolds(market: Market, ticker: string, last: Trade, currentPrice: real)
    requires market.lastTrade(ticker) == Success(Some(last)) && last.tradePrice.None?
    requires market.currentPrice(ticker) == Success(currentPrice)
    ensures var r := Evaluate(market, ticker);
      r.trade == Some(NoTrade(ticker)) && OrderCount(r.stockCalls) == 0 && r.logged == []
  {
  }

  /** The threshold is exactly 15% of the last price and inclusive on both
      sides, whatever the last price, date and ticker; an unchanged positive
      price places no order. */
  lemma ExactlyFifteenPercentQualifies(last: Trade, lastPrice: real)
    requires last.tradePrice == Some(lastPrice)
    ensures last.side == Some(SellSide) ==> Decide(last, lastPrice * 85.0 / 100.0) == PlaceBuy
    ensures last.side != Some(SellSide) ==> Decide(last, lastPrice * 115.0 / 100.0) == PlaceSell
    ensures lastPrice > 0.0 ==> Decide(last, lastPrice) == Hold
  {
  }

  /** If GetLastTrade throws, its message is logged once, GetCurrentPrice is
      never called, no order is placed and the "none" trade is returned. */
  lemma LastTradeFailureLogged(market: Market, ticker: string)
    requires market.lastTrade(ticker).Failure?
    ensures var r := Evaluate(market, ticker);
      r.logged == [market.lastTrade(ticker).error] && r.trade == Some(NoTrade(ticker))
      && CountOf(r.stockCalls, GetCurrentPriceOp) == 0 && OrderCount(r.stockCalls) == 0
  {
  }

  /** If GetCurrentPrice throws (whether or not the last trade was null), its
      message is logged once, no order is placed and the "none" trade is returned. */
  lemma CurrentPriceFailureLogged(market: Market, ticker: string)
    requires market.lastTrade(ticker).Success? && market.currentPrice(ticker).Failure?
    ensures var r := Evaluate(market, ticker);
      r.logged == [market.currentPrice(ticker).error] && r.trade == Some(NoTrade(ticker))
      && r.stockCalls == [GetLastTradeCall(ticker), GetCurrentPriceCall(ticker)]
      && OrderCount(r.stockCalls) == 0
  {
  }

  /** A null last trade throws when its Side is read, after both queries:
      the null-reference message is logged and no order is placed. */
  lemma NullLastTradeLogged(market: Market, ticker: string)
    requires market.lastTrade(ticker) == Success(None) && market.currentPrice(ticker).Success?
    ensures var r := Evaluate(market, ticker);
      r.logged == [NullReferenceMessage] && r.trade == Some(NoTrade(ticker))
      && OrderCount(r.stockCalls) == 0
  {
  }

  /** Every invocation queries the input ticker first, places at most one
      order (never both a Buy and a Sell), and every call it makes, order or
      query, names the input ticker; every order is for 200 shares. */
  lemma AtMostOneOrder(market: Market, ticker: string)
    ensures var r := Evaluate(market, ticker);
      OrderCount(r.stockCalls) <= 1
      && !(CountOf(r.stockCalls, BuyOp) > 0 && CountOf(r.stockCalls, SellOp) > 0)
      && r.stockCalls[0] == GetLastTradeCall(ticker)
      && (forall i :: 0 <= i < |r.stockCalls| ==> r.stockCalls[i].ticker == ticker)
      && (forall i :: 0 <= i < |r.stockCalls| && r.stockCalls[i].Op() in {BuyOp, SellOp} ==>
            r.stockCalls[i].nbrShares == Quantity)
  {
    OrdersPerAttempt(market, ticker);
  }

  /** Log is called if and only if some call made throws or the last trade is
      null. The try block stops at the first exception, so only the last call
      made can have thrown, and the logged message is that call's message or,
      when every call succeeded, the null-reference message. */
  lemma LogOnlyOnFailure(market: Market, ticker: string)
    ensures var r := Evaluate(market, ticker);
      (r.logged != [] <==> SomeCallThrows(market, r.stockCalls) || market.lastTrade(ticker) == Success(None))
      && (forall i :: 0 <= i < |r.stockCalls| - 1 ==> FailureOf(market, r.stockCalls[i]).None?)
      && (r.logged != [] ==>
            r.logged == [if FailureOf(market, r.stockCalls[|r.stockCalls| - 1]).Some?
                         then FailureOf(market, r.stockCalls[|r.stockCalls| - 1]).value
                         else NullReferenceMessage])
  {
    var r := Evaluate(market, ticker);
    var n := |r.stockCalls|;
    if FailureOf(market, r.stockCalls[n - 1]).Some? {
      assert SomeCallThrows(market, r.stockCalls);
    }
  }
}
