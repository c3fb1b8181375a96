# Drift/Mango spread trader and FTX passive hedger, in Dafny

This project models the decision logic of a cross-venue spread-trading bot:

- **The passive hedger** (`src/ftx_hedger.ts`). Each cycle visits ETH, BTC and SOL in turn. For each market it adds the Mango perp position to the FTX coin balance to get `delta`. It acts only when `|delta|` is strictly above that market's `minChange` (SOL 5, ETH 0.3, BTC 0.02). Then it reconciles FTX's open orders against a single target order:
  - side: buy when `delta < 0`, otherwise sell;
  - price: from `findPrice` on the matching book side;
  - size: `|delta|`.

  The outcomes are cancel-all, cancel, modify, or a post-only limit placement. A placement is debounced for five seconds through the process-wide `localOrders` list.
- **The spread signal** (`src/drifting-mango.ts`). Drift's mark price becomes a long entry price `mark * (1 + longSlippage)` and a short entry price `mark * (1 - shortSlippage)`. Each `mainLoop` compares them with Mango's top of book. A paired trade fires when a spread is strictly above the fixed `THRESHOLD = 0.44444`:
  - long trade: Drift LONG plus Mango sell;
  - short trade: Drift SHORT plus Mango buy.

Modules:

- `orders.dfy` (`Orders`): shared vocabulary. It defines `Option`, `Side`, `OrderKind`, the book `Level` and `Abs`.
- `orderbook.dfy` (`OrderBook`): `findPrice`. It is a recursive walk over the levels that accumulates size. Its reference definition is the cumulative depth `Cum`, plus `Reaches`.
- `hedger.dfy` (`FtxHedger`):
  - `Reconcile` is one market's step as a pure function `(delta, minChange, book, open orders, localOrders, now) -> (actions, localOrders', failed)`.
  - `StepMarket` computes the market's delta and applies its `minChange`.
  - `RunCycle` runs markets in a given order, threading `localOrders`. `Loop` is one call of `loop()`: `RunCycle` over ETH, BTC, SOL.
- `drifting_mango.dfy` (`DriftingMango`): the entry prices, `canOpenDriftLong`/`canOpenDriftShort`, and the `mainLoop` decision as a function that returns the trades it sends.

Numbers are Dafny `real`s, an idealisation of JavaScript's doubles. Rounding is not modelled. The model does keep JavaScript's division by zero, because the short spread divides by Mango's top bid. The result is `+Infinity`, `-Infinity` or `NaN` (`JsNumber`), and `> THRESHOLD` holds only of `+Infinity`. Venue queries become inputs: positions, balances, order books, open orders, the clock and the Drift position value. Venue calls become `Action` and `Trade` values.

Behaviour kept exactly as the code has it:

- `findPrice` receives the signed `delta` (`src/ftx_hedger.ts:52`). On the buy side a third of a negative delta is below any non-negative level size, so buys always take the top bid.
- The debounce filter assigns its result to the global `localOrders` (`src/ftx_hedger.ts:76-80`). Any market whose step reaches it drops the entries of every other market and side. Markets are visited ETH, BTC, SOL (`src/ftx_hedger.ts:35`), so the last market to reach the filter decides what survives a cycle. The five-second window is therefore lost when another market's step reaches the filter between two steps of one market. If BTC's step reaches the filter after ETH places at `t`, ETH's entry is gone (`LaterFilterDropsEarlierEntries`). So the next cycle's ETH step with no open order places again (`DebounceWithNoOpenOrder`), even at `t + 1`.
- Freshness is `epoch + 5 > now` (`src/ftx_hedger.ts:79`). A re-placement for the same market and side is therefore allowed from T+5 on.
- In `mainLoop`, `mangoBid` holds Mango's top ask (`src/drifting-mango.ts:132`) and `mangoAsk` holds its top bid (`src/drifting-mango.ts:133`). Both Mango legs are priced at `mangoAsk`, the top bid (`src/drifting-mango.ts:156, 178`).
- A failed `canOpenDriftLong`/`canOpenDriftShort` only logs (`src/drifting-mango.ts:142-144, 164-166`). The trade is still built and sent, and `Trade.exposureWarning` records the log line.
- `canOpenDriftLong` and `canOpenDriftShort` are plain comparisons against `±MAX_POSITION_SIZE` (`src/drifting-mango.ts:118-124`). With a cap of 3000, a position on one side never blocks a trade the other way (`ExposureBand`).
- A zero entry price means "not ready" (`src/drifting-mango.ts:128`).
- `THRESHOLD` is a constant. The code only has `TODO: MAKE IT DYNAMIC` (`src/drifting-mango.ts:25-26`).

## Model

| member | source | states |
|---|---|---|
| OrderBook.FindPrice | src/ftx_hedger.ts:19-28 | Fails (the `orderbook[0][0]` fallback throws) exactly when the book is empty. Otherwise it returns a price that appears in the book. |
| OrderBook.WalkStopsAtFirstReaching | src/ftx_hedger.ts:20-26 | Started with the true running sum, the accumulating walk stops iff some level's cumulative size reaches the target. It then stops at the first such level. |
| OrderBook.FindPriceFirstReachingLevel | src/ftx_hedger.ts:19-28 | On a non-empty book, `findPrice` is the price of the first level whose cumulative size is at least `size/3`. If no level reaches it, the result is `orderbook[0][0]`. |
| OrderBook.FindPriceNonPositiveSize | src/ftx_hedger.ts:22-24 | With `size <= 0` and a non-negative first size, `findPrice` returns the best level's price. |
| OrderBook.FindPriceWalksPastThinLevel | src/ftx_hedger.ts:19-28 | Asks [[20, 0.1], [20.1, 0.5]] and size 1.2 give price 20.1, the level where cumulative depth first reaches 0.4. |
| FtxHedger.KeepFresh | src/ftx_hedger.ts:76-80 | An entry is kept iff it was in the list, is for this market and side, and has `epoch + 5 > now`. The list never grows. |
| FtxHedger.Reconcile | src/ftx_hedger.ts:44-98 | No action and no change when `\|delta\| <= minChange`. It fails only on an empty book side. It issues at most two calls. Every modify has size `\|delta\|` at a book price. Every placement is a post-only limit order for this market, with side buy iff `delta < 0`, size `\|delta\|` and a book price. A placement never happens with exactly one open order. `localOrders` is either untouched or holds only this market's and side's entries. |
| FtxHedger.RunCycle | src/ftx_hedger.ts:37-102 | At most two calls per market. All markets quiet means no calls and `localOrders` unchanged. A failed query for any market marks the cycle failed. |
| FtxHedger.Loop | src/ftx_hedger.ts:31-102 | At most six calls. All three markets quiet means no calls. A failed ETH query means no calls at all and `localOrders` unchanged. A failed BTC or SOL query marks the cycle failed. |
| FtxHedger.StepMarket | src/ftx_hedger.ts:13-49 | The step for one market: `delta` is the Mango position plus the FTX coin balance, checked against that market's `minChange`. Within the band, nothing happens. Otherwise a placement is for this market, with side buy iff `delta < 0` and size `\|delta\|`. A cancel-all is for this market. `localOrders` is untouched or holds only this market's entries. |
| FtxHedger.LoopThreadsInOrder | src/ftx_hedger.ts:35-100 | With all three markets fetched, the cycle is the ETH step, then BTC's from the list ETH left, then SOL's from the list BTC left. Calls are concatenated in that order. A failing step ends the cycle there. |
| FtxHedger.LaterFilterDropsEarlierEntries | src/ftx_hedger.ts:35-80 | When ETH's step does not fail and BTC's step reaches the filter, no ETH entry survives the cycle. This holds even for one ETH placed in the same pass. |
| FtxHedger.LastFilterOwnsList | src/ftx_hedger.ts:35-80 | When ETH's and BTC's steps do not fail and SOL's step reaches the filter, every entry left after the cycle is a SOL entry. |
| FtxHedger.CancelAllThenAsIfNoOrders | src/ftx_hedger.ts:55-73 | With more than one open order, the step is a cancel-all followed by exactly what it does with no open orders. |
| FtxHedger.SingleOpenOrder | src/ftx_hedger.ts:60-72 | With one open order: nothing if it is at the target price. Otherwise only a cancel if it is on the wrong side, or a modify to (target price, `\|delta\|`) if it is on the same side. `localOrders` is untouched. |
| FtxHedger.DebounceWithNoOpenOrder | src/ftx_hedger.ts:73-97 | With no open order: a fresh entry for this market and side suppresses the placement and leaves only the kept entries. Without one, a post-only limit order is placed and recorded at `now` as the only entry. |
| FtxHedger.DebounceWindow | src/ftx_hedger.ts:74-97 | After a placement at `t`, take the next step for the same market and side, with no open order and the list the first step returned. It places again iff `dt >= 5`. |
| FtxHedger.DebounceDropsOtherEntries | src/ftx_hedger.ts:76-80 | Once a step reaches the filter, every entry for another market or side is gone from `localOrders`. |
| FtxHedger.BuySideTakesTopBid | src/ftx_hedger.ts:49-93 | A short delta with no open order and no fresh entry places a buy of `-delta` at the top bid's price, whatever the book's depth. |
| FtxHedger.ShortDeltaScenario | src/ftx_hedger.ts:44-97 | Delta -1.2, minChange 0.5, bids [[20, 0.9], [19.8, 1.0]]: one buy of 1.2 at 20 is placed and recorded. |
| FtxHedger.FailureEndsCycle | src/ftx_hedger.ts:37-102 | A query failure for one market ends the cycle: the markets after it contribute nothing. |
| DriftingMango.OnMarketsAccountUpdate | src/drifting-mango.ts:114-115 | For a positive mark, the long entry is at least the mark iff the long slippage is non-negative. The short entry is at most the mark iff the short slippage is non-negative. A zero mark gives the not-ready state. |
| DriftingMango.ReadyAfterUpdate | src/drifting-mango.ts:88-130 | The initial state is not ready. After an update it is ready iff the mark is nonzero, the long slippage is not -1 and the short slippage is not 1. |
| DriftingMango.PercentChange | src/drifting-mango.ts:135-136 | The spread is finite iff the base price is nonzero. For a positive base it is positive iff the other price is above the base. For a zero base it is `+Infinity` iff the other price is positive. |
| DriftingMango.SpreadSigns | src/drifting-mango.ts:132-136 | With a positive long entry, the long spread is positive iff Mango's top ask exceeds it. With a positive top bid, the short spread is positive iff the short entry exceeds that bid. |
| DriftingMango.MainLoop | src/drifting-mango.ts:127-183 | Not ready or an empty Mango book side means no trade. There are at most two trades, long before short. Each trade pairs a $100 Drift position with a Mango market order on the opposite side. That order is handed `usdAmount` $100 and priced at Mango's top bid. Each trade carries the spread of its own direction, which exceeds THRESHOLD. The exposure warning is exactly the failed `canOpenDrift*` check. |
| DriftingMango.LongFiresIff | src/drifting-mango.ts:136-160 | When ready, the long trade fires iff `(topAsk - longEntry) / longEntry * 100 > THRESHOLD`, whatever the short side does. |
| DriftingMango.ShortFiresIff | src/drifting-mango.ts:133-182 | When ready, the short trade fires iff `(shortEntry - topBid) / topBid * 100 > THRESHOLD`. With a zero top bid it fires iff the short entry is positive. |
| DriftingMango.ThresholdIsStrict | src/drifting-mango.ts:136-141 | A long spread of exactly 0.44444 does not fire, and 0.44445 does. |
| DriftingMango.ExposureNeverSuppresses | src/drifting-mango.ts:141-182 | Any two position values give the same trades, except for the logged warning. |
| DriftingMango.BothCanFire | src/drifting-mango.ts:141-182 | Both branches can fire in one cycle, as two trades, long first. |
| DriftingMango.LongSpreadScenario | src/drifting-mango.ts:132-160 | Long entry 100 against a top ask of 100.5 is a 0.5% spread. It gives one trade: Drift long $100, plus a Mango market sell at the top bid with `usdAmount` $100. |
| DriftingMango.ExposureBand | src/drifting-mango.ts:118-124 | A smaller position value never closes the long check, and a larger one never closes the short check. At least one check always holds. A non-positive value never blocks a long, and a non-negative value never blocks a short. |

## Left out

- `src/mango.ts` is not part of this model. It holds account loading, `getL2`, price/quantity conversion, order-instruction building and account valuation. Mango's top prices and positions are inputs. `marketLong` and `marketShort` are reduced to the side, order kind, `usdAmount` and price they are called with. They size the order from a `quantity` argument that `src/drifting-mango.ts:156, 178` never pass, and they never read `usdAmount`. So the $100 never reaches the Mango order, and the model says nothing about that order's size.
- Drift SDK primitives (`calculateMarkPrice`, `calculateTradeSlippage`, `convertToNumber`, precision scaling) are not modelled. Their results are real-valued inputs.
- Wallet, connection and provider setup, subscriptions, and building and sending transactions are not modelled. A trade in the result is a transaction the code sends. A send failure is only logged, so it changes nothing in the model.
- FTX REST calls are not modelled. Their answers are inputs, and any of the per-market queries failing is one `FetchFailed`. FTX is assumed to echo the requested market and side in a placed order's result, which is what the debounce entry records.
- A cancel, modify or place call that throws mid-step is not modelled. Those calls are taken to succeed, so only query failures and the empty-book `findPrice` exception end a cycle.
- StatsD gauges, logging and the 5-second account-value timer are not modelled, because they are I/O. The hedger's `loop()` re-schedules itself only after a cycle ends, so one `Loop` is one cycle.
- `MainLoop` takes one consistent snapshot of its inputs and treats the two branches as independent. The code differs in four ways:
  - `setInterval(mainLoop, 4000)` starts runs of an async function without waiting for the previous run, so runs can overlap (`src/drifting-mango.ts:184`).
  - `priceInfo` is read by the guard at `src/drifting-mango.ts:128` and again for the spreads at `:135-136`. The awaits at `:132-133` sit between the two reads, so an update can land in between.
  - The position value is read again at `:164`, after the long trade is sent.
  - `mainLoop` has no try/catch. A throw while building the long transaction (`:150-156`, outside the `.catch` at `:157`) ends the run before the short branch.

  `LongFiresIff`'s "whatever the short side does" and `BothCanFire` hold under the snapshot reading.
- IEEE-754 rounding and NaN inputs are not modelled. All arithmetic is exact on `real`s.
- The mark-price event stream is reduced to the initial state and one update. Later updates overwrite both entries the same way.
