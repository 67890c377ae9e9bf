/** The repository's unit-test scenarios, as clients of the class model:
    each builds a stock service answering fixed values, runs GetRich and
    states what the recording collaborators must show afterwards. An
    operation a test does not set up answers null, as a loose mock does. */
module BusinessScenarios {
  import opened Wrappers
  import opened Service
  import opened Business
  import opened BusinessProperties

  const Earlier: Timestamp := Timestamp(0, 0)
  const Now: Timestamp := Timestamp(144_000_000_000, 0)

  /** A stock service whose every operation answers the given values for any arguments. */
  method NewStockService(lastTrade: Result<Option<Trade>, string>, currentPrice: Result<real, string>,
                         bought: Result<Option<Trade>, string>, sold: Result<Option<Trade>, string>)
    returns (service: StockService)
    ensures fresh(service) && service.calls == []
    ensures forall t :: service.market.lastTrade(t) == lastTrade && service.market.currentPrice(t) == currentPrice
    ensures forall t, n :: service.market.buy(t, n) == bought && service.market.sell(t, n) == sold
  {
    var market := Market((t, n) => bought, t => currentPrice, t => lastTrade, (t, n) => sold);
    service := new StockService(market);
  }

  /** Last trade a buy at 10.00, current price 11.50: exactly 15% higher, so a sell. */
  method SellWhenLastTradeWasBuy() {
    var last := Trade("ABC", Some(10.00), Some(Earlier), Some("buy"));
    var simulatedSell := Trade("ABC", Some(11.50), Some(Now), Some("sell"));
    var stocks := NewStockService(Success(Some(last)), Success(11.50), Success(None), Success(Some(simulatedSell)));
    var log := new LogService();
    var logic := new StocksLogic(stocks, log);

    var theSell := logic.GetRich("ABC");
    SellAfterRise(stocks.market, "ABC", last, 11.50);

    assert theSell.Some? && theSell.value.side == Some("sell");
    assert theSell.value.tradeDate == simulatedSell.tradeDate;
    assert CountOf(stocks.calls, SellOp) == 1;
    assert CountOf(stocks.calls, BuyOp) == 0;
    assert log.messages == [];
  }

  /** Last trade a sell at 10.00, current price 8.03: more than 15% lower, so a buy. */
  method BuyWhenLastTradeWasSell() {
    var last := Trade("ABC", Some(10.00), Some(Earlier), Some("sell"));
    var simulatedBuy := Trade("ABC", Some(11.50), Some(Now), Some("buy"));
    var stocks := NewStockService(Success(Some(last)), Success(8.03), Success(Some(simulatedBuy)), Success(None));
    var log := new LogService();
    var logic := new StocksLogic(stocks, log);

    var theBuy := logic.GetRich("ABC");
    BuyAfterFall(stocks.market, "ABC", last, 8.03);

    assert theBuy.Some? && theBuy.value.side == Some("buy");
    assert theBuy.value.tradeDate == simulatedBuy.tradeDate;
    assert CountOf(stocks.calls, BuyOp) == 1;
    assert CountOf(stocks.calls, SellOp) == 0;
    assert log.messages == [];
  }

  /** GetCurrentPrice throws (and GetLastTrade, not set up, answers null):
      the price lookup's message is logged once and GetRich returns "none". */
  method GetCurrentPriceThrowsException() {
    var stocks := NewStockService(Success(None), Failure("Unable to get current price"),
                                  Success(None), Success(None));
    var log := new LogService();
    var logic := new StocksLogic(stocks, log);

    var result := logic.GetRich("ABC");

    assert log.messages == ["Unable to get current price"];
    assert result.Some? && result.value.side == Some("none");
    assert OrderCount(stocks.calls) == 0 by {
      CountOfAppend([GetLastTradeCall("ABC")], [GetCurrentPriceCall("ABC")], BuyOp);
      CountOfAppend([GetLastTradeCall("ABC")], [GetCurrentPriceCall("ABC")], SellOp);
    }
  }

  /** Last trade a buy at 9.00, current price 10.00: under 15% higher, so no trade. */
  method NeitherSellNorBuyTradeIsMade() {
    var last := Trade("ABC", Some(9.00), Some(Earlier), Some("buy"));
    var stocks := NewStockService(Success(Some(last)), Success(10.00), Success(None), Success(None));
    var log := new LogService();
    var logic := new StocksLogic(stocks, log);

    var theSell := logic.GetRich("ABC");

    assert theSell.Some? && theSell.value.side == Some("none");
    assert theSell.value.tradeDate.None?;
    assert CountOf(stocks.calls, BuyOp) == 0 && CountOf(stocks.calls, SellOp) == 0 by {
      CountOfAppend([GetLastTradeCall("ABC")], [GetCurrentPriceCall("ABC")], BuyOp);
      CountOfAppend([GetLastTradeCall("ABC")], [GetCurrentPriceCall("ABC")], SellOp);
    }
    assert log.messages == [];
  }
}
