/** The Service project: the Trade record and the two collaborators the
    trading rule depends on (the stock service and the log sink). */
module Service {
  import opened Wrappers

  /** A DateTimeOffset; the trading rule only passes it through. */
  datatype Timestamp = Timestamp(utcTicks: int, offsetMinutes: int)

  /** A trade record. Prices are exact base-10 decimals, so `real`.
      The nullable properties the trading rule inspects or sets to null
      are `Option`s: a null Side compares unequal to "sell", a null
      TradePrice makes the lifted arithmetic null. */
  datatype Trade = Trade(
    ticker: string,
    tradePrice: Option<real>,
    tradeDate: Option<Timestamp>,
    side: Option<string>)

  /** The four operations of the stock service, as a call recorder sees them. */
  datatype Operation = BuyOp | GetCurrentPriceOp | GetLastTradeOp | SellOp

  /** One recorded call on the stock service, with its arguments. */
  datatype StockCall =
    | BuyCall(ticker: string, nbrShares: real)
    | GetCurrentPriceCall(ticker: string)
    | GetLastTradeCall(ticker: string)
    | SellCall(ticker: string, nbrShares: real)
  {
    function Op(): Operation {
      match this
      case BuyCall(_, _) => BuyOp
      case GetCurrentPriceCall(_) => GetCurrentPriceOp
      case GetLastTradeCall(_) => GetLastTradeOp
      case SellCall(_, _) => SellOp
    }
  }

  /** How many recorded calls are of operation `op`, whatever their arguments:
      a mock's "verify called Times.Once / Times.Never" reads this number. */
  function CountOf(calls: seq<StockCall>, op: Operation): (n: nat)
    ensures n <= |calls|
    ensures n == 0 <==> forall i :: 0 <= i < |calls| ==> calls[i].Op() != op
    ensures n == |calls| <==> forall i :: 0 <= i < |calls| ==> calls[i].Op() == op
  {
    if calls == [] then 0
    else
      var rest := CountOf(calls[1..], op);
      assert forall i :: 1 <= i < |calls| ==> calls[i] == calls[1..][i - 1];
      (if calls[0].Op() == op then 1 else 0) + rest
  }

  /** Counting distributes over a concatenated call log. */
  lemma {:induction false} CountOfAppend(a: seq<StockCall>, b: seq<StockCall>, op: Operation)
    ensures CountOf(a + b, op) == CountOf(a, op) + CountOf(b, op)
  {
    if a != [] {
      assert (a + b)[1..] == a[1..] + b;
      CountOfAppend(a[1..], b, op);
    } else {
      assert a + b == b;
    }
  }

  /** What each stock-service operation answers for given arguments: a value,
      or the message of the exception it throws. The three operations that
      answer a Trade reference may answer null. */
  datatype Market = Market(
    buy: (string, real) -> Result<Option<Trade>, string>,
    currentPrice: string -> Result<real, string>,
    lastTrade: string -> Result<Option<Trade>, string>,
    sell: (string, real) -> Result<Option<Trade>, string>)

  /** The message of the exception `call` throws against `market`, if it throws. */
  function FailureOf(market: Market, call: StockCall): Option<string> {
    match call
    case BuyCall(t, n) => market.buy(t, n).ErrorOf()
    case GetCurrentPriceCall(t) => market.currentPrice(t).ErrorOf()
    case GetLastTradeCall(t) => market.lastTrade(t).ErrorOf()
    case SellCall(t, n) => market.sell(t, n).ErrorOf()
  }

  /** The stock service collaborator: answers from `market` and records every call. */
  class StockService {
    const market: Market
    var calls: seq<StockCall>

    constructor (market: Market)
      ensures this.market == market && calls == []
    {
      this.market := market;
      calls := [];
    }

    method Buy(ticker: string, nbrShares: real) returns (r: Result<Option<Trade>, string>)
      modifies this
      ensures r == market.buy(ticker, nbrShares)
      ensures calls == old(calls) + [BuyCall(ticker, nbrShares)]
    {
      calls := calls + [BuyCall(ticker, nbrShares)];
      r := market.buy(ticker, nbrShares);
    }

    method GetCurrentPrice(ticker: string) returns (r: Result<real, string>)
      modifies this
      ensures r == market.currentPrice(ticker)
      ensures calls == old(calls) + [GetCurrentPriceCall(ticker)]
    {
      calls := calls + [GetCurrentPriceCall(ticker)];
      r := market.currentPrice(ticker);
    }

    method GetLastTrade(ticker: string) returns (r: Result<Option<Trade>, string>)
      modifies this
      ensures r == market.lastTrade(ticker)
      ensures calls == old(calls) + [GetLastTradeCall(ticker)]
    {
      calls := calls + [GetLastTradeCall(ticker)];
      r := market.lastTrade(ticker);
    }

    method Sell(ticker: string, nbrShares: real) returns (r: Result<Option<Trade>, string>)
      modifies this
      ensures r == market.sell(ticker, nbrShares)
      ensures calls == old(calls) + [SellCall(ticker, nbrShares)]
    {
      calls := calls + [SellCall(ticker, nbrShares)];
      r := market.sell(ticker, nbrShares);
    }
  }

  /** The log sink collaborator: records every message it is given. */
  class LogService {
    var messages: seq<string>

    constructor ()
      ensures messages == []
    {
      messages := [];
    }

    method Log(message: string)
      modifies this
      ensures messages == old(messages) + [message]
    {
      messages := messages + [message];
    }
  }
}
