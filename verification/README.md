# StocksLogic trading rule, modelled in Dafny

This project models `StocksLogic.GetRich`, the one decision rule of the
repository. For one ticker it reads the last trade and the current price
from an injected stock service. It then applies a 15% threshold measured
against the last trade's price:

- after a last `"sell"`, it buys 200 shares once the price has fallen by at least 15%;
- after any other last side, it sells 200 shares once the price has risen by at least 15%.

It returns the service's answer to that order unchanged (a `Trade`
reference, which may be null), or a `"none"` trade.
Every exception is caught. Its message goes to the log service once, and the
caller gets the `"none"` trade.

Files and modules:

- `wrappers.dfy` (`Wrappers`): `Option` for C# nulls; `Result` for a call that
  returns or throws (the failure carries the exception's message). `Result`
  supports `:-`, which plays the part of a throw. `Option<Trade>` stands for a
  `Trade` reference, since GetLastTrade, Buy and Sell may all answer null.
- `service.dfy` (`Service`): the `Trade` record, the calls a stock service can
  receive, and `CountOf` (how many calls of one operation were recorded, which is
  what a mock's "called once / never" checks). `Market` gives the stock
  service's answers, value or exception, as functions of the arguments. Two
  collaborator classes, `StockService` and `LogService`, answer from it and
  record every call they receive.
- `business.dfy` (`Business`): the threshold rule `Decide` as a pure function,
  including C#'s lifted `decimal?` arithmetic. `AttemptOf` is the try block: the
  calls made, then a possibly-null trade or an exception message. `Evaluate` is the try block
  followed by the catch. The class `StocksLogic` holds the two collaborators, and
  its `GetRich` method is proved equal to `Evaluate`.
- `business_properties.dfy` (`BusinessProperties`): lemmas over `Evaluate`, one
  for each behaviour the rule promises.
- `scenarios.dfy` (`BusinessScenarios`): the four unit-test scenarios of
  `Business.Tests/BusinessUnitTests.cs`, written as client methods of the class model.
  An operation a test does not set up answers null, as a loose mock does.

Decimal prices are `real`. C# `decimal` is exact base-10, so `p - p * .15m`
equals `0.85 * p` exactly.

The model follows the code as written:

- `Side` is a free-form, nullable string, not a closed enumeration. Any value
  other than `"sell"` takes the sell-side branch, including `null`, `"none"` and
  unexpected strings.
- The ticker is never checked for being non-empty.
- A null last trade is not a service failure. It throws a null-reference
  exception when its `Side` is read, after both queries have been made.
- `GetCurrentPriceThrowsException_Test` (Business.Tests/BusinessUnitTests.cs:122-140)
  never calls `GetRich`, so its assertions cannot run. The scenario
  `GetCurrentPriceThrowsException` states what that test evidently intends.

## Model

| member | source | states |
|---|---|---|
| `Business.Decide` | Business/StocksLogic.cs:28-43 | After a last side of exactly "sell", the result is a buy iff a last price exists and the current price is at most 85% of it. After any other side (including null), the result is a sell iff a last price exists and the current price is at least 115% of it. Otherwise it holds. |
| `Business.AttemptOf` | Business/StocksLogic.cs:23-47 | The try block makes one of four call sequences: GetLastTrade(ticker); that plus GetCurrentPrice(ticker); or those two plus one Buy(ticker, 200) or one Sell(ticker, 200). Whenever the last call made threw, the block fails with that call's message. |
| `Business.Evaluate` | Business/StocksLogic.cs:21-53 | The caller never sees an exception. It gets either the "none" trade or exactly what Buy(ticker, 200) or Sell(ticker, 200) answered, null included. At most one message is logged, and only when the "none" trade is returned. |
| `Business.StocksLogic.constructor` | Business/StocksLogic.cs:15-19 | Stores the two injected collaborators. |
| `Business.StocksLogic.Attempt` | Business/StocksLogic.cs:23-47 | The method's calls on the stock service and its outcome are exactly those of `AttemptOf`. A throwing call ends the block, and the Decide result selects Buy, Sell or the "none" trade. |
| `Business.StocksLogic.GetRich` | Business/StocksLogic.cs:21-53 | The returned trade reference (possibly null), the calls appended to the stock service's log and the messages appended to the log service are exactly those of `Evaluate`. Each invocation adds at most one order and at most one log message. |
| `Business.OrdersPerAttempt` | Business/StocksLogic.cs:28-43 | The try block places at most one order (Buy or Sell), and only as its last call. |
| `Business.OrdersAccumulate` | Business/StocksLogic.cs:21-53 | Appending one invocation's calls to any earlier call log adds at most one order. |
| `BusinessProperties.BuyAfterFall` | Business/StocksLogic.cs:28-34 | After a sell, a price at or below 85% of the last price gives the calls GetLastTrade, GetCurrentPrice, Buy(ticker, 200): Buy exactly once, Sell never. Buy's answer is returned unchanged, null included, with nothing logged. If Buy throws, its message is logged and "none" is returned. |
| `BusinessProperties.SellAfterRise` | Business/StocksLogic.cs:36-42 | After anything but a sell, a price at or above 115% of the last price gives the calls GetLastTrade, GetCurrentPrice, Sell(ticker, 200): Sell exactly once, Buy never. Sell's answer is returned unchanged, null included, with nothing logged. If Sell throws, its message is logged and "none" is returned. |
| `BusinessProperties.HoldBelowThresholds` | Business/StocksLogic.cs:45-46 | When neither threshold holds, the result has the input ticker, side "none", no price and no date. No order is placed and nothing is logged. |
| `BusinessProperties.NullLastPriceHolds` | Business/StocksLogic.cs:31-39 | A null last price makes both lifted comparisons false. The result is the "none" trade with no order and no log. |
| `BusinessProperties.ExactlyFifteenPercentQualifies` | Business/StocksLogic.cs:31-39 | Both comparisons are inclusive at exactly 15% of the last price (85% buys after a sell, 115% sells otherwise). An unchanged positive price holds. |
| `BusinessProperties.LastTradeFailureLogged` | Business/StocksLogic.cs:25-51 | If GetLastTrade throws, its message is logged once and GetCurrentPrice is never called. No order is placed and "none" is returned. |
| `BusinessProperties.CurrentPriceFailureLogged` | Business/StocksLogic.cs:26-51 | If GetCurrentPrice throws, its message is logged once and the only calls are the two queries. No order is placed and "none" is returned. |
| `BusinessProperties.NullLastTradeLogged` | Business/StocksLogic.cs:28-51 | A null last trade, with a current price available, logs the null-reference message. No order is placed and "none" is returned. |
| `BusinessProperties.AtMostOneOrder` | Business/StocksLogic.cs:28-43 | Each invocation places at most one order and never both a Buy and a Sell. Its first call is GetLastTrade(ticker), every call names the input ticker, and every order is for 200 shares. |
| `BusinessProperties.LogOnlyOnFailure` | Business/StocksLogic.cs:48-51 | Log is called iff some call made threw or the last trade was null. Only the last call made can have thrown. The logged message is that call's message, or the null-reference message when no call threw. |
| `Service.CountOf` | Business.Tests/BusinessUnitTests.cs:59-65 | The count of calls of one operation is zero iff no recorded call is of that operation, and equals the log's length iff every call is. |
| `Service.StockService.Buy` | Service/IStockService.cs:5 | Returns the market's answer to Buy(ticker, nbrShares), a possibly-null trade or an exception, and records exactly that call. |
| `Service.StockService.GetCurrentPrice` | Service/IStockService.cs:6 | Returns the market's answer for the ticker's current price and records exactly that call. |
| `Service.StockService.GetLastTrade` | Service/IStockService.cs:7 | Returns the market's answer for the ticker's last trade (possibly null) and records exactly that call. |
| `Service.StockService.Sell` | Service/IStockService.cs:8 | Returns the market's answer to Sell(ticker, nbrShares), a possibly-null trade or an exception, and records exactly that call. |
| `Service.LogService.Log` | Business/StocksLogic.cs:50 | Appends exactly the given message to the log sink's record. |

## Left out

- The real implementations of the stock service and the log service (pricing, brokerage I/O, the logging sink) are not shown. `Market` stands in for any stock service as a function of the arguments. The log service only records messages.
- `Service.StockService`: its answers are fixed per object. A real service's answers can change between invocations (a Buy changes the last trade). Within one invocation each operation is called at most once, so this loses nothing for a single `GetRich`.
- The declaration of `ILogService` is not part of this model. Its only operation used here, `Log(string)`, is taken from Business/StocksLogic.cs:50.
- `Service.LogService.Log` never throws. An exception thrown by `Log` inside the catch block would escape `GetRich`; that path is not modelled.
- Decimal overflow and 28-digit rounding are not modelled, because prices are unbounded exact reals. So the overflow exception that `p + p * .15m` can raise near the decimal maximum, and the catch path it would take, are not captured.
- Null is not modelled for `Trade.Ticker` or the input ticker: the rule never reads either, it only passes them on. The .NET exception types are reduced to their message strings.
- `DateTimeOffset` is an opaque `Timestamp`. It is only passed through from Buy/Sell or left null.
- The Moq setup helpers (Business.Tests/serviceMocks) are replaced by `Market` and the recording collaborator classes. `BuySharesOfContrivedExample` is unused by any test and not modelled.
- Concurrent use of `StocksLogic` is not modelled: the class holds no mutable state of its own.
