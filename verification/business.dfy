/** The Business project: the trading rule `StocksLogic.GetRich`.
    It reads the last trade and the current price of a ticker, buys 200
    shares after a fall of at least 15% since a sell, sells 200 shares
    after a rise of at least 15% since anything else, and turns every
    exception into a logged message and a "none" trade. */
module Business {
  import opened Wrappers
  import opened Service

  const SellSide: string := "sell"
  const NoneSide: string := "none"
  /** The fixed order size passed to Buy and Sell. */
  const Quantity: real := 200.0
  /** The 15% threshold, as the decimal literal .15m. */
  const ThresholdRate: real := 0.15
  /** The message of the exception .NET throws when a member of a null reference is read. */
  const NullReferenceMessage: string := "Object reference not set to an instance of an object."

  /** The trade returned when no order is placed. */
  function NoTrade(ticker: string): Trade {
    Trade(ticker, None, None, Some(NoneSide))
  }

  // C#'s lifted operators on decimal?: a null operand makes the arithmetic
  // null, and a comparison with null is false.

  function LiftedMul(a: Option<real>, b: real): Option<real> {
    if a.Some? then Some(a.value * b) else None
  }

  function LiftedAdd(a: Option<real>, b: Option<real>): Option<real> {
    if a.Some? && b.Some? then Some(a.value + b.value) else None
  }

  function LiftedSub(a: Option<real>, b: Option<real>): Option<real> {
    if a.Some? && b.Some? then Some(a.value - b.value) else None
  }

  predicate LiftedLe(a: real, b: Option<real>) {
    b.Some? && a <= b.value
  }

  predicate LiftedGe(a: real, b: Option<real>) {
    b.Some? && a >= b.value
  }

  /** The outcome of the threshold test: which order, if any, to place. */
  datatype Decision = PlaceBuy | PlaceSell | Hold

  /** The threshold rule on the last trade and the current price. After a
      sell, buy once the price has fallen to 85% of the last price or below;
      after anything else (buy, none, null, any other string), sell once it
      has risen to 115% or above. Both bounds are inclusive; a null last
      price never qualifies. */
  function Decide(last: Trade, currentPrice: real): (d: Decision)
    ensures d == PlaceBuy <==>
      last.side == Some(SellSide) && last.tradePrice.Some? && currentPrice <= 0.85 * last.tradePrice.value
    ensures d == PlaceSell <==>
      last.side != Some(SellSide) && last.tradePrice.Some? && currentPrice >= 1.15 * last.tradePrice.value
  {
    var lastPrice := last.tradePrice;
    if last.side == Some(SellSide) then
      if LiftedLe(currentPrice, LiftedSub(lastPrice, LiftedMul(lastPrice, ThresholdRate))) then PlaceBuy else Hold
    else
      if LiftedGe(currentPrice, LiftedAdd(lastPrice, LiftedMul(lastPrice, ThresholdRate))) then PlaceSell else Hold
  }

  /** What the try block does: the stock-service calls it makes, in order,
      and either the trade reference it returns (null when Buy or Sell
      answered null) or the message of the exception that ends it. */
  datatype TryBlock = TryBlock(calls: seq<StockCall>, outcome: Result<Option<Trade>, string>)

  /** The try block of GetRich against the answers of `market`. It queries the
      last trade, then the current price, then places at most one order of
      200 shares of the input ticker, stopping at the first exception. */
  function AttemptOf(market: Market, ticker: string): (a: TryBlock)
    ensures a.calls == [GetLastTradeCall(ticker)]
         || a.calls == [GetLastTradeCall(ticker), GetCurrentPriceCall(ticker)]
         || a.calls == [GetLastTradeCall(ticker), GetCurrentPriceCall(ticker), BuyCall(ticker, Quantity)]
         || a.calls == [GetLastTradeCall(ticker), GetCurrentPriceCall(ticker), SellCall(ticker, Quantity)]
    ensures FailureOf(market, a.calls[|a.calls| - 1]).Some? ==>
      a.outcome == Failure(FailureOf(market, a.calls[|a.calls| - 1]).value)
  {
    var first := [GetLastTradeCall(ticker)];
    match market.lastTrade(ticker)
    case Failure(m) => TryBlock(first, Failure(m))
    case Success(lastTrade) =>
      var queried := first + [GetCurrentPriceCall(ticker)];
      match market.currentPrice(ticker)
      case Failure(m) => TryBlock(queried, Failure(m))
      case Success(currentPrice) =>
        match lastTrade
        case None => TryBlock(queried, Failure(NullReferenceMessage))
        case Some(last) =>
          match Decide(last, currentPrice)
          case PlaceBuy => TryBlock(queried + [BuyCall(ticker, Quantity)], market.buy(ticker, Quantity))
          case PlaceSell => TryBlock(queried + [SellCall(ticker, Quantity)], market.sell(ticker, Quantity))
          case Hold => TryBlock(queried, Success(Some(NoTrade(ticker))))
  }

  /** Everything one GetRich invocation does that can be observed: the trade
      reference it returns (possibly null), the stock-service calls and the
      logged messages. */
  datatype Run = Run(trade: Option<Trade>, stockCalls: seq<StockCall>, logged: seq<string>)

  /** GetRich as a whole: the try block, then the catch that logs the
      exception's message and returns the "none" trade. The caller never
      sees an exception: it gets either the "none" trade or exactly what
      Buy or Sell answered (null included); at most one message is logged,
      and only when the "none" trade is returned. */
  function Evaluate(market: Market, ticker: string): (r: Run)
    ensures |r.logged| <= 1
    ensures r.logged != [] ==> r.trade == Some(NoTrade(ticker))
    ensures r.trade == Some(NoTrade(ticker))
         || market.buy(ticker, Quantity) == Success(r.trade)
         || market.sell(ticker, Quantity) == Success(r.trade)
  {
    var a := AttemptOf(market, ticker);
    match a.outcome
    case Success(t) => Run(t, a.calls, [])
    case Failure(m) => Run(Some(NoTrade(ticker)), a.calls, [m])
  }

  /** The trading rule object, holding its two injected collaborators. */
  class StocksLogic {
    const stockService: StockService
    const logService: LogService

    constructor (stockService: StockService, logService: LogService)
      ensures this.stockService == stockService && this.logService == logService
    {
      this.stockService := stockService;
      this.logService := logService;
    }

    /** The try block: a failing call returns its message, as a throw would. */
    method Attempt(ticker: string) returns (r: Result<Option<Trade>, string>)
      modifies stockService
      ensures var a := AttemptOf(stockService.market, ticker);
        r == a.outcome && stockService.calls == old(stockService.calls) + a.calls
    {
      var lastTrade :- stockService.GetLastTrade(ticker);
      var currentPrice :- stockService.GetCurrentPrice(ticker);
      if lastTrade.None? {
        return Failure(NullReferenceMessage);
      }
      match Decide(lastTrade.value, currentPrice) {
        case PlaceBuy =>
          r := stockService.Buy(ticker, Quantity);
        case PlaceSell =>
          r := stockService.Sell(ticker, Quantity);
        case Hold =>
          r := Success(Some(NoTrade(ticker)));
      }
    }

    /** Never throws: a failure is logged once and becomes the "none" trade.
        Each invocation adds at most one order and at most one log message
        to what the collaborators have recorded. */
    method GetRich(ticker: string) returns (trade: Option<Trade>)
      modifies stockService, logService
      ensures var run := Evaluate(stockService.market, ticker);
        trade == run.trade
        && stockService.calls == old(stockService.calls) + run.stockCalls
        && logService.messages == old(logService.messages) + run.logged
      ensures OrderCount(stockService.calls) <= OrderCount(old(stockService.calls)) + 1
      ensures |logService.messages| <= |old(logService.messages)| + 1
    {
      var outcome := Attempt(ticker);
      match outcome {
        case Success(t) =>
          trade := t;
        case Failure(message) =>
          logService.Log(message);
          trade := Some(NoTrade(ticker));
      }
      assert stockService.calls == old(stockService.calls) + Evaluate(stockService.market, ticker).stockCalls;
      OrdersAccumulate(old(stockService.calls), stockService.market, ticker);
    }
  }

  /** Orders (Buy or Sell calls) in a recorded call log. */
  function OrderCount(calls: seq<StockCall>): nat {
    CountOf(calls, BuyOp) + CountOf(calls, SellOp)
  }

  /** The try block places at most one order, and only as its last call. */
  lemma OrdersPerAttempt(market: Market, ticker: string)
    ensures var calls := AttemptOf(market, ticker).calls;
      OrderCount(calls) <= 1
      && forall i :: 0 <= i < |calls| - 1 ==> calls[i].Op() !in {BuyOp, SellOp}
  {
    var calls := AttemptOf(market, ticker).calls;
    var queries := [GetLastTradeCall(ticker), GetCurrentPriceCall(ticker)];
    if |calls| == 3 {
      assert calls == queries + [calls[2]];
      CountOfAppend(queries, [calls[2]], BuyOp);
      CountOfAppend(queries, [calls[2]], SellOp);
    }
  }

  /** One more invocation adds at most one order to a service's call log. */
  lemma OrdersAccumulate(before: seq<StockCall>, market: Market, ticker: string)
    ensures OrderCount(before + Evaluate(market, ticker).stockCalls) <= OrderCount(before) + 1
  {
    var calls := Evaluate(market, ticker).stockCalls;
    CountOfAppend(before, calls, BuyOp);
    CountOfAppend(before, calls, SellOp);
    OrdersPerAttempt(market, ticker);
  }
}
