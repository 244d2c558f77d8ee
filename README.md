# coinbase-swing decision core, modelled in Dafny

This project models the decision logic of the coinbase-swing trading bot:

- **Indicator and sizing helpers** (`utils.dfy`, module `Utils`): sums, means, deviations and variance; the up/down move split behind RSI; relative volume; VWAP; order sizing and the decimal logic of `setSigDig`; the five-bucket slope score; the time-shorthand parser; the stable metric sort.
- **Portfolio tracker** (`portfolio.dfy`, module `Portfolio`): the closure state of `PortfolioFactory` as a class with `gain`, `initialValue`, `balances`, `prices` and the freeze flag.
- **State builder** (`market_state.dfy`, module `StateBuilder`): which accounts count as holdings, which products are tradable, the bounded history retry, and the per-product metrics.
- **Order decisions** (`orders.dfy`, module `Orders`): `buy`, `sell`, `remargin` and `cleanOrphans` as methods of an `OrderFactory` class. The class remembers `targetPrice` and keeps a log of the requests it sent.
- **Server process** (`server.dfy`, module `Server`):
  - the start-up configuration and the strategy filter;
  - `executeBuy`, `executeSell` and `executeWalkAway`;
  - the gates of one wake cycle, the clock tick guard, the daily reset and the POST `/config` merge, all as methods of a `Bot` class.
- **Dashboard configuration panel** (`dashboard.dfy`, module `Dashboard`): the page's state object, `nullifyStateAttributes`, `getPercentValue`, the decoding in `initializeState`, the request body of `sendConfig`, and `onChange`.

Module `Js` (`js.dfy`) holds the slice of JavaScript semantics these decisions rely on:
- truthiness, unary `+` on strings, `parseInt` and `String(n)`;
- `toFixed` on exact reals;
- ordered objects, held as sequences of `(key, value)` pairs in insertion order.

Module `Snapshot` (`snapshot.dfy`) holds the candle, product record and market state.

Products are kept as a sequence of `(id, record)` pairs. The state builder stores products as an object keyed by id. `getEligibleByStrategy` reads `id` from each product and `buy` reads `Object.entries(product)[0]`, so both expect each product to carry its id. As written, `sortByMetric` hands them the object's bare records, which have no `id`, and no buy is ever placed (see "## Findings"). The buying path of the model keeps each id with its record, which is what the code evidently means; the dashboard also reads `prod.id` from the state's products (ui/components/app/index.js:95).

Everything the exchange, the market-cap service, the clock or the browser answers is an input:
- the product list and the accounts, either of which may fail;
- the 24-hour stats and the ticker of each tradable product, either of which may fail;
- ticker prices per open order or holding;
- the list of open orders;
- the candle history pages of each retry;
- the replies to placed orders;
- the filled size seen by each poll.

What the bot sends to the exchange is modelled as a log of `MarketBuy`, `LimitSell` and `Cancel` requests.

Non-finite numbers are `None` (NaN or an infinity). Configuration values are JavaScript values (`Js.Val`), so truthiness, `isNaN` and relational coercion follow the source.

Facts of the code that the proofs bring out:
- **The state builder sets few fields.** It never sets `rsi`, `relativeVolume`, `periodSlope` or `marketSlopeCategory`:
  - every named strategy rejects every built product (`Server.NamedStrategyBuysNothingFromBuiltState`, `Server.BuiltStateCycleNeverBuys`);
  - the bearish-market gate never fires (`Server.UndefinedSlopeCategoryNeverBearish`).
- **The clock starts only with POST `/config`.** `setClock` is called from the POST `/config` handler alone, so no cycle runs before the first POST (`Server.Bot.Tick` does nothing while the clock is unset). That POST sets the testing flag to the truthiness of its body's `isTesting`, and every later cycle runs with that flag.
- **The testing flag is always on at start-up.** `isTesting` starts true whatever the command line says (`Server.StartupAlwaysTesting`), but no cycle sees that value, since the first POST replaces it. A POST whose body asks for testing gives cycles that never buy (`Server.PostedTestingCycleNeverBuys`).
- **A numeric wake time stores nothing.** Without a wake-time argument the wake time is the number 10, not a shorthand string, and a POST that leaves the wake time out keeps it. `convertTimeShortHandToMinutes` then throws on the first product, so no product is ever stored (`StateBuilder.NumericIntervalBuildsNothing`). A POST with a string wake time such as "10m" lifts this. The dashboard cannot load a numeric wake time either (`Dashboard.DefaultStartupNeverLoads`).
- **A missing history ends the whole product loop.** A product whose history cannot be fetched is meant to be skipped. In the code, a product whose history stays empty after 50 attempts throws out of the loop, so no later product is stored (`StateBuilder.FirstFailureHidesAll`). The same holds when a product's stats or ticker request throws, and then its ticker is not recorded either (`StateBuilder.FailedQuoteRecordsNothing`). The model follows the code.
- **Re-pricing can repeat.** A second `remargin` without price movement is meant to replace nothing. The code rounds limit prices to cents, and for cheap coins that rounding can put the new order under its own stop price again (`Orders.ReplacementCanRepeat`). The model follows the code, and `Orders.ReplacementSettles` proves when the intended behaviour does hold.
- **As written, the server does not start.** `MarketCapFactory` is imported but not exported, so server.js:47 throws when the module loads; `init`, `getAllOrders` and `abandonStale` are called but not defined either. The model assumes these succeed (see "## Left out").
- **As written, no buy is ever placed.** `sortByMetric` turns the keyed products into records without ids, so the top-coin filter reads `id.match` on `undefined` and throws on the first product; `main` catches the error and buys nothing (`Server.AsWrittenNeverChooses`, `Server.TradeAsWrittenNeverBuys`). With the ids kept, the choice is the intended one (`Server.KeptIdsChooseAsIntended`).
- **A size that rounds to zero buys nothing.** `buy` refuses a valid size once `setSigDig` has rounded it to 0 (`Orders.TinySizeBuysNothing`).

## Model

| member | source | states |
|---|---|---|
| `Js.ToNumber` | server.js:20-26 | unary `+` gives a number or NaN, and leaves a number as it is; a string is read by `StringToNumber` |
| `Js.StringToNumber` | ui/js/functions.js:85 | unary `+` on a string trims white space, reads an empty string as 0 and a signed decimal numeral as its value, and gives NaN otherwise |
| `Js.PaddedNumber` | ui/js/functions.js:85 | a digit string surrounded by white space reads as the number it spells |
| `Js.ParseInt` | src/lib/utils.js:73 | `parseInt` skips leading white space, takes a sign, reads a "0x" prefix as hexadecimal and otherwise the leading decimal digits; no digit gives NaN |
| `Js.ParseIntHex` | src/lib/utils.js:73 | `parseInt("0x10")` is 16 |
| `Js.ToFixed` | src/lib/utils.js:169 | `toFixed(d)` rounds half away from zero to d decimals |
| `Js.ToFixedClose` | src/lib/utils.js:157-170 | `toFixed(d)` moves a value by at most half a unit in the d-th decimal and keeps its sign |
| `Js.ToFixedIdempotent` | ui/js/functions.js:104-110 | rounding to d decimals a second time changes nothing |
| `Js.ParseIntOfDigits` | src/lib/utils.js:64-75 | `parseInt` of a digit run followed by a non-digit is the value of the digits, unless the text starts "0x" or "0X" |
| `Js.NatToStringValue` | ui/js/functions.js:179 | the decimal spelling `String(n)` reads back as n |
| `Js.CanonicalDigits` | ui/js/functions.js:179 | a digit string without superfluous leading zeros is the spelling of its own value |
| `Js.DigitStringNumber` | ui/js/functions.js:115 | unary `+` on a digit string gives the number it spells |
| `Js.NumeralsAreNumbers` | ui/js/functions.js:85 | unary `+` turns "12" into 12, "-0.5" into -0.5, " 5 " into 5 and "" into 0 |
| `Js.OtherValuesAreNaN` | server.js:339 | `isNaN` holds for "abc" and `undefined` but not for `null` |
| `Js.PutSpec` | src/factories/index.js:62-64 | assigning a key stores the value under it, leaves every other key's value alone, adds the key to the key set, and grows the object only for a new key |
| `Js.PutNewKey` | src/factories/index.js:62-64 | assigning a key the object lacks appends one entry at the end |
| `Js.PutKeepsUnique` | src/factories/index.js:62-64 | assignment keeps the keys of an object unique |
| `Js.GetAt` | ui/js/functions.js:30-36 | with unique keys, looking up the key of any entry gives that entry's value |
| `Js.FirstRunOf` | server.js:81 | a regular-expression match `(C+)F` on a class run followed by accepted text captures exactly that run |
| `Utils.Sum` | src/lib/utils.js:77-81 | `sumArr` adds the elements from the left, 0 for the empty array |
| `Utils.SumAppend` | src/lib/utils.js:77-81 | `sumArr` of a concatenation is the sum of the parts' sums |
| `Utils.Mean` | src/lib/utils.js:83-85 | `meanArr` is defined (not NaN) exactly for a non-empty array, and the mean times the length is the sum |
| `Utils.DeltaYs` | src/lib/utils.js:87-90 | `getDeltaYs` keeps the array's length |
| `Utils.DeltaYsSumZero` | src/lib/utils.js:87-90 | the deviations from the mean sum to zero |
| `Utils.DeltaYsExample` | src/lib/__tests__/unit.test.js:38-40 | [2,4,1,2,1] gives [0,2,-1,0,-1] |
| `Utils.SquareArr` | src/lib/utils.js:144-146 | `squareArr` keeps the length and gives non-negative elements |
| `Utils.Variance` | src/lib/utils.js:92-99 | `calculateVariance` is never negative (0 for the empty array) |
| `Utils.VarianceOfConstant` | src/lib/utils.js:92-99 | a constant array has variance 0 |
| `Utils.VarianceOneToTen` | src/lib/__tests__/unit.test.js:44-46 | the variance of 1..10 is 8.25 |
| `Utils.Moves` | src/lib/utils.js:109-122 | the moves between consecutive closes, the rises (an unchanged close counting as a rise of 0) for up and the falls for down |
| `Utils.Rsi` | src/lib/utils.js:101-107 | `calculateRSI` from the average up and down moves, NaN when the series has no up move or no down move |
| `Utils.CalcAverageMoves` | src/lib/utils.js:109-122 | the loop that pushes each move in the requested direction returns the mean of exactly the moves `Moves` describes |
| `Utils.MovesNonNegative` | src/lib/utils.js:109-122 | every recorded move is at least 0 and every down move is positive |
| `Utils.MovesPartition` | src/lib/utils.js:109-122 | up moves plus down moves number one less than the candles: an unchanged close counts as up |
| `Utils.AverageMoveSigns` | src/lib/utils.js:109-122 | the average up move is non-negative and the average down move positive |
| `Utils.RsiFormula` | src/lib/utils.js:101-107 | for a non-negative gain and positive loss the RSI formula lies in [0,100) and equals 100·up/(up+down) |
| `Utils.RsiRange` | src/lib/utils.js:101-107 | `calculateRSI` is a number exactly when the series has both up and down moves, and then lies in [0,100) |
| `Utils.RsiOfRisingSeries` | src/lib/utils.js:101-107 | a series that never falls has an RSI of NaN, not 100 |
| `Utils.SliceFromEnd` | src/lib/utils.js:124-129 | `slice(-n)` is the last n elements, and the whole array for n = 0 |
| `Utils.DivOpt` | src/lib/utils.js:124-129 | a division is a number exactly when both operands are and the divisor is non-zero |
| `Utils.RelativeVolume` | src/lib/utils.js:124-129 | the mean volume of the last n candles over the mean volume of all of them |
| `Utils.RelativeVolumeOfWholeWindow` | src/lib/utils.js:124-129 | a window covering the whole history gives relative volume 1 |
| `Utils.RelativeVolumeOfConstantVolume` | src/lib/utils.js:124-129 | a constant non-zero volume gives relative volume 1 for any non-empty window |
| `Utils.Vwap` | src/lib/utils.js:135-142 | `calculateVWAP` is a number exactly when the total volume is non-zero |
| `Utils.VwapBetweenTypicalPrices` | src/lib/utils.js:135-142 | with non-negative volumes the VWAP lies between the lowest and highest typical price, give or take the half cent of `toFixed(2)` |
| `Utils.VwapExample` | src/lib/utils.js:135-142 | three candles with typical prices 10, 8, 11 and volumes 100, 300, 200 give 9.33 |
| `Utils.CalcSize` | src/lib/utils.js:148-151 | the size times the price is the cash times the fraction |
| `Utils.CalcLimitPrice` | src/lib/utils.js:172-174 | the limit price divided by 1 + margin is the buy price |
| `Utils.ShortHandHex` | src/lib/utils.js:64-75 | "0x10m" is 16 minutes, because `parseInt` reads the "0x" prefix |
| `Utils.SizingExamples` | src/lib/__tests__/unit.test.js:17-30 | `calcSize(1000,100,0.5)` is 0.05, 0.0002 is not a valid size against 0.01, the 10% limit over 1000 is 1100, and no size is valid against itself |
| `Utils.RemoveFirst` | src/lib/utils.js:157-170 | `replace(".", "")` removes only the first dot, and nothing when there is none |
| `Utils.DecimalPlaces` | src/lib/utils.js:158-168 | the decimals `setSigDig` reads from an increment: drop the first ".", drop the zeros right after the first "1", and count the characters that are not "1" |
| `Utils.SetSigDig` | src/lib/utils.js:157-170 | the size passed through `toFixed` with that many decimals |
| `Utils.DecimalPlacesOfIncrement` | src/lib/utils.js:157-170 | an increment "0.", d-1 zeros, "1", trailing zeros yields d decimals, and "1." with zeros yields 0 |
| `Utils.SetSigDigRoundsToIncrement` | src/lib/utils.js:157-170 | for such an increment the size moves by at most half an increment |
| `Utils.SetSigDigThousandths` | src/lib/__tests__/unit.test.js:24 | "0.0010000" has 3 decimals and 0.0239487 becomes 0.024 |
| `Utils.SetSigDigUnits` | src/lib/__tests__/unit.test.js:25 | "1.0000000" has 0 decimals and 2.23452345 becomes 2 |
| `Utils.SetSigDigHundredths` | src/lib/__tests__/unit.test.js:26 | "0.010000000" has 2 decimals and 1230.234235345 becomes 1230.23 |
| `Utils.SlopeScore` | src/lib/utils.js:176-195 | the score is in 1..5; 1 exactly below -0.0001, 3 exactly in [-0.00001, 0.00001), 5 exactly from 0.0001 |
| `Utils.SlopeScoreMonotone` | src/lib/utils.js:176-195 | a steeper slope never gets a lower score |
| `Utils.ShortHandToMinutes` | src/lib/utils.js:64-75 | the result is never 0 |
| `Utils.ShortHandOfDigits` | src/lib/utils.js:64-75 | digits + "m" is that many minutes and digits + "h" sixty times as many; seconds, an unknown unit or a zero count give 1 |
| `Utils.ShortHandOfNumber` | src/lib/utils.js:64-75 | "<n>m" is n minutes and "<n>h" 60n minutes for every positive n |
| `Utils.ShortHandTenMinutes` | src/lib/utils.js:64-75 | "10m" is 10 |
| `Utils.ShortHandTwoHours` | src/lib/utils.js:64-75 | "2h" is 120 |
| `Utils.ShortHandSeconds` | src/lib/utils.js:64-75 | "30s" falls back to 1 |
| `Utils.ShortHandZero` | src/lib/utils.js:64-75 | "0m" falls back to 1 |
| `Utils.Insert` | src/lib/utils.js:50-56 | inserting a product adds exactly that product to the multiset of products |
| `Utils.InsertSorted` | src/lib/utils.js:50-56 | inserting into a list sorted by the metric keeps it sorted |
| `Utils.SortBy` | src/lib/utils.js:50-56 | lodash `sortBy` gives a permutation, ascending by the metric with undefined last, and stable: products with equal metric keep their order |
| `Utils.SortByMetric` | src/lib/utils.js:50-56 | `sortByMetric` changes only `products`, into a sorted, stable permutation of them |
| `Portfolio.BalancesOf` | src/factories/index.js:54-61 | the balance object has unique keys |
| `Portfolio.BalancesOfLastWins` | src/factories/index.js:54-61 | a currency reads the balance of its last account row, and the keys are exactly the rows' currencies |
| `Portfolio.BaseCurrency` | src/factories/index.js:62-64 | the currency of a product id is the text before its first "-" and holds no "-" |
| `Portfolio.HeldValue` | src/factories/index.js:78-82 | the sum over the price entries of balance × price, counting only positive balances |
| `Portfolio.Value` | src/factories/index.js:76-89 | the USD balance (0 without a USD row) plus the priced holdings |
| `Portfolio.ValueWithoutPrices` | src/factories/index.js:76-89 | with no prices the portfolio is worth its USD balance, 0 without a USD row |
| `Portfolio.NewPriceAddsHolding` | src/factories/index.js:76-89 | pricing a new currency adds balance × price when the balance is positive, and nothing otherwise |
| `Portfolio.HeldValueAppend` | src/factories/index.js:78-82 | a price entry added last adds its own contribution to the sum |
| `Portfolio.HeldValueOfNothingHeld` | src/factories/index.js:78-82 | currencies with a missing, zero or negative balance add nothing |
| `Portfolio.HeldValueNonNegative` | src/factories/index.js:78-82 | with non-negative prices the priced holdings are worth at least 0 |
| `Portfolio.Gain` | src/factories/index.js:87 | the gain times the baseline is the change in value, 0 when the value is unchanged, and for a positive baseline non-negative exactly when the value did not fall |
| `Portfolio.PortfolioTracker.constructor` | src/factories/index.js:46-51 | a new tracker has gain 0, no baseline, no balances, no prices, not frozen |
| `Portfolio.PortfolioTracker.SetBalances` | src/factories/index.js:54-61 | replaces the balance table with the one built from the rows, where each currency reads its last row; nothing else changes |
| `Portfolio.PortfolioTracker.SetTickerPrice` | src/factories/index.js:62-64 | stores the price under the id's base currency and changes no other price and nothing else |
| `Portfolio.PortfolioTracker.GetPrices` | src/factories/index.js:65-67 | answers the price table |
| `Portfolio.PortfolioTracker.GetBalances` | src/factories/index.js:68-70 | answers the balance table |
| `Portfolio.PortfolioTracker.Reset` | src/factories/index.js:71-75 | clears gain, baseline and freeze and leaves balances and prices |
| `Portfolio.PortfolioTracker.Compute` | src/factories/index.js:76-89 | without a baseline, records the value as baseline and leaves the gain; otherwise sets gain = (value - baseline)/baseline, never dividing by zero; freeze, balances and prices unchanged |
| `Portfolio.PortfolioTracker.GetGain` | src/factories/index.js:90-92 | answers the gain |
| `Portfolio.PortfolioTracker.Freeze` | src/factories/index.js:93-95 | sets the freeze flag and nothing else |
| `Portfolio.PortfolioTracker.IsFrozen` | src/factories/index.js:96-98 | answers the freeze flag |
| `StateBuilder.CryptoHoldings` | src/factories/index.js:109-116 | the holdings object has unique keys |
| `StateBuilder.CryptoHoldingsExactly` | src/factories/index.js:109-116 | the holdings are exactly the non-USD currencies with a row whose available amount is positive, each in an amount such a row reports |
| `StateBuilder.FirstUsd` | src/factories/index.js:108 | the USD row found is a USD row of the list, and there is none exactly when no row is USD |
| `StateBuilder.TargetProducts` | src/factories/index.js:118-126 | the tradable products are exactly those whose id ends in "USD" and that are not limit-only |
| `StateBuilder.TargetProductsOfConcat` | src/factories/index.js:118-126 | the filter keeps list order |
| `StateBuilder.ReverseReverses` | src/factories/index.js:144 | the history is the page in the opposite order |
| `StateBuilder.FetchHistory` | src/factories/index.js:140-157 | the retry loop makes 1 to 50 attempts and ends with the reversed page of the first non-empty answer, or empty |
| `StateBuilder.HistoryStep` | src/factories/index.js:142-157 | a non-empty page ends the retries; a failed or empty answer leaves the outcome to later attempts |
| `StateBuilder.HistoryFromEmpty` | src/factories/index.js:140-161 | the history is empty exactly when none of the 50 attempts brought a row |
| `StateBuilder.ProductMetrics` | src/factories/index.js:163-208 | the record stored for one product from its price, open, history and increments |
| `StateBuilder.Derive` | src/factories/index.js:163-208 | each stored metric is its ratio: change to the open, volatility, VWAPs and slopes to the price, and the composite score is relative VWAP minus 5 × relative slope; RSI, relative volume and period slope stay undefined |
| `StateBuilder.RelativeVwapSign` | src/factories/index.js:186-188 | the relative VWAP is positive exactly when the price is above a positive VWAP, negative exactly when below |
| `StateBuilder.MetricsUnscored` | src/factories/index.js:197-208 | the stored record never has RSI, relative volume or period slope |
| `StateBuilder.BuiltProducts` | src/factories/index.js:128-209 | every stored record lacks RSI, relative volume and period slope |
| `StateBuilder.Reached` | src/factories/index.js:128-161 | no more tickers are recorded than products handled |
| `StateBuilder.BuiltState` | src/factories/index.js:102-223 | the answered state holds only records without RSI and no slope category, and is the initial empty state when the product list or the accounts cannot be fetched |
| `StateBuilder.BuildState` | src/factories/index.js:102-223 | answers `BuiltState`. With both listings: sets balances, holdings and cash from the accounts, walks the products until the first whose stats, ticker or history throws, records the tickers of the products walked, except one whose own stats or ticker threw, and stores the products walked. Without them, balances and prices stay as they were. Then it computes the portfolio gain |
| `StateBuilder.ReachedAfterAbort` | src/factories/index.js:128-214 | once a product has thrown, later products are not walked |
| `StateBuilder.FailedQuoteRecordsNothing` | src/factories/index.js:130-133 | when the first product's stats or ticker request throws, no ticker is recorded at all |
| `StateBuilder.FirstFailureHidesAll` | src/factories/index.js:159-161 | a first product without history leaves no product at all, whatever later histories hold |
| `StateBuilder.NumericIntervalBuildsNothing` | src/factories/index.js:137 | a wake interval that is not a string stores no product and records at most one ticker |
| `Orders.BuyRequests` | src/factories/index.js:228-243 | the requests of `buy`: the raw size from the cash, then `BuyOfSize` |
| `Orders.BuyOfSize` | src/factories/index.js:231-236 | a valid size is rounded to the increment, an invalid one becomes 0, and a size of 0 sends nothing |
| `Orders.BuyDecision` | src/factories/index.js:228-243 | at a positive price `buy` orders exactly when the committed cash is worth more than the minimum size and the rounded size is not 0, and then sends one market buy of the rounded size |
| `Orders.BuyOfSizeDecision` | src/factories/index.js:231-242 | the same decision for any raw size whose cost is given |
| `Orders.TinySizeBuysNothing` | src/factories/index.js:231-236 | 0.004 is a valid size against a minimum of 0.0001, but rounds to 0 at an increment of "0.01", so no buy is sent |
| `Orders.ValidSizeIffWorthMore` | src/lib/utils.js:153-155 | `IsValidSize` (strictly above the minimum) holds exactly when the size's cost is above the minimum's cost |
| `Orders.BuySizeOfIncrement` | src/factories/index.js:231-242 | with a minimum of at least half an increment, a placed buy has a positive size within half an increment of the raw size |
| `Orders.SetSigDigClose` | src/lib/utils.js:157-170 | rounding a size moves it by at most half an increment |
| `Orders.SetSigDigAboveMinimum` | src/lib/utils.js:157-170 | a size of at least half an increment does not round to 0 |
| `Orders.SellPrice` | src/factories/index.js:244-253 | the limit price is NaN exactly when neither a price nor a remembered buy price exists |
| `Orders.SellPriceNear` | src/factories/index.js:244-253 | the limit price is within half a cent of the basis raised by the margin, and never negative for a positive basis and a margin above -1 |
| `Orders.ShouldReplaceScaled` | src/factories/index.js:267-271 | the stop test `ShouldReplace` is the same as: forced, or ticker × (1+margin) × (1+stopMargin) ≤ limit |
| `Orders.RemarginPass` | src/factories/index.js:258-288 | the re-pricing pass over the open orders: each one to be replaced is cancelled and re-sold at the margin over its ticker; the pass stops at the first failed request |
| `Orders.RemarginStopsAtFailure` | src/factories/index.js:260-286 | after the first failure the later open orders change nothing |
| `Orders.RemarginCancelsFirst` | src/factories/index.js:262-282 | every sell of a pass directly follows the cancel of an open order with the same product and size |
| `Orders.ForcedPassReplacesAll` | src/factories/index.js:258-288 | a forced pass with every request answered cancels and re-sells every open order in order, at the 0.001 margin over the ticker, and returns every replacement |
| `Orders.PassAboveStopIsQuiet` | src/factories/index.js:258-288 | an unforced pass over orders whose tickers stay above their stop prices sends and returns nothing |
| `Orders.ReplacementCanRepeat` | src/factories/index.js:269-279 | at a ticker of 0.145 the replacement's limit rounds to 0.15, which the next pass (1% margin, 0.5% stop) replaces again |
| `Orders.ReplacementSettles` | src/factories/index.js:269-279 | when the margins outweigh half a cent of rounding, a replacement is left alone by the next pass at the same ticker |
| `Orders.CleanupPass` | src/factories/index.js:289-315 | the orphan sale: each holding whose amount reaches its product minimum is sold whole at the margin over its ticker; the sale stops at the first failed ticker request |
| `Orders.CleanupSellsOnlySellable` | src/factories/index.js:289-315 | every request of the orphan sale sells a whole holding that reaches its product minimum |
| `Orders.CleanupSellsEverySellable` | src/factories/index.js:289-315 | with every ticker answered the sale completes and sells every holding that reaches its product minimum |
| `Orders.CleanupStopsAtFailure` | src/factories/index.js:290-293 | after a failed ticker request the later holdings change nothing |
| `Orders.MinimumIsSoldNotBought` | src/factories/index.js:295 | an amount equal to the minimum is sold by the cleanup while a buy of that size is refused |
| `Orders.OrderFactory.constructor` | src/factories/index.js:225-227 | a new factory remembers no price and has sent nothing |
| `Orders.OrderFactory.Buy` | src/factories/index.js:228-243 | remembers the price, sends the buy requests `BuyRequests` gives (none for an invalid size or one that rounds to 0), and answers the reply only when a buy was sent |
| `Orders.OrderFactory.Sell` | src/factories/index.js:244-254 | sends one limit sell at `SellPrice` of the given price or the remembered one |
| `Orders.OrderFactory.Remargin` | src/factories/index.js:258-288 | sends the requests of the re-pricing pass and answers its accepted replacements; nothing when listing fails |
| `Orders.OrderFactory.CleanOrphans` | src/factories/index.js:289-315 | sends the requests of the orphan sale and reports whether it ran to the end |
| `Server.StartupConfig` | server.js:19-35 | the configuration read from the command line, with its defaults |
| `Server.StartupAlwaysTesting` | server.js:27 | the bot starts in testing mode whatever the command line says |
| `Server.StartupNumbersNonZero` | server.js:20-26 | the fields read with unary `+` hold non-zero numbers: 0 and NaN fall back to the defaults |
| `Server.DefaultWakeTimeIsNumeric` | server.js:19 | without a wake-time argument the wake time is the number 10, not a string |
| `Server.SymbolOfUsdProduct` | server.js:81-82 | the symbol matched in "SYM-USD" is SYM |
| `Server.StrategyRsiGate` | server.js:85-105 | `PassesStrategy`: a named strategy keeps a product only with a defined RSI within `maxRSI`; any other strategy keeps every product |
| `Server.UnscoredFailsNamedStrategies` | server.js:85-105 | a product without RSI passes no named strategy |
| `Server.Eligible` | server.js:78-106 | the filter never adds products |
| `Server.EligibleMembers` | server.js:78-106 | a product is eligible exactly when it is listed, among the top coins, and passes the strategy |
| `Server.EligibleAppend` | server.js:78-106 | the filter keeps input order |
| `Server.FirstEligible` | server.js:78-106 | the first eligible product is the first listed product the filters keep |
| `Server.BuyChoice` | server.js:115-128 | the chosen product is listed and eligible |
| `Server.BuyChoiceIsLowestEligible` | server.js:115-128 | the chosen product has the lowest metric among eligible products; nothing is chosen exactly when nothing is eligible or the market slope category is below its minimum |
| `Server.SortedSameMembers` | server.js:116 | sorting neither adds nor drops a product |
| `Server.FirstEligibleIsLowest` | server.js:117-128 | in a sorted list the first kept product has the lowest metric of all kept products |
| `Server.UndefinedSlopeCategoryNeverBearish` | server.js:124-127 | an undefined market slope category never blocks the buy |
| `Server.NamedStrategyBuysNothingFromBuiltState` | server.js:115-122 | with a named strategy, no product of a built state is chosen |
| `Server.FirstFill` | server.js:143-150 | the first poll with a positive filled size, preceded only by unfilled polls; none when no poll saw a fill |
| `Server.ExecuteWalkAway` | server.js:158-161 | freezes the portfolio, changing nothing else in it, then sends the forced re-pricing pass |
| `Server.Purchase` | server.js:128-136 | a buy is only ever sent for a chosen product |
| `Server.ExecuteBuy` | server.js:108-137 | sends the buy of the chosen product with the state's cash and answers null when nothing is chosen or the size is too small |
| `Server.TopCoinFilter` | server.js:78-84 | the top-coin filter throws exactly when some product lacks an id; otherwise it keeps listed products whose symbol is among the top coins |
| `Server.StrategyFilter` | server.js:85-104 | the strategy filter keeps only listed records that pass the strategy |
| `Server.AsWrittenNeverChooses` | server.js:113-137 | as written, the top-coin filter throws on any non-empty state and no product is ever chosen |
| `Server.KeptIdsFilterAsEligible` | server.js:78-104 | with ids kept, the two filters keep exactly the products `Eligible` keeps, in order |
| `Server.KeptIdsChooseAsIntended` | server.js:113-128 | with ids kept, `executeBuy` chooses what `BuyChoice` chooses |
| `Server.TradeAsWrittenNeverBuys` | server.js:218-236 | as written, the thrown filter is caught in `main`: the cycle sends no buy and ends with no buy |
| `Server.AsWrittenMissesEligibleProducts` | server.js:113-128 | whenever a listed product is eligible and the market is not bearish, the intended choice buys and the code as written does not |
| `Server.ExecuteSell` | server.js:139-156 | polls at most 100 times, stops at the first fill, throws when none is seen, and places the limit sell only after a fill |
| `Server.Built` | server.js:166-171 | the state a cycle builds has only records without RSI and an undefined slope category |
| `Server.RemarginNeverBuys` | src/factories/index.js:258-288 | re-pricing never sends a market buy |
| `Server.CleanupNeverBuys` | src/factories/index.js:289-315 | the orphan sale never sends a market buy |
| `Server.BeforeTradeNeverBuys` | server.js:194-199 | the orphan sale and both re-pricing passes never buy |
| `Server.TradeBuysOnlyTheChoice` | server.js:218-249 | the trade's only market buy comes first and is for the chosen product |
| `Server.TradeForBuysOnlyTheChoice` | server.js:218-249 | the same for any chosen product |
| `Server.Cycle` | server.js:164-252 | one run of `main` after the state is built: the walk-away gate, the testing gate, the orphan sale, re-pricing, the order-count gate and the trade, with the outcome and the requests sent |
| `Server.CycleBuysOnlyTheChoice` | server.js:164-252 | a cycle sends at most one market buy, only for the chosen product, and never after the walk-away gate, when testing, or at the order limit |
| `Server.PostedTestingCycleNeverBuys` | server.js:330-348 | after a POST whose body's `isTesting` is truthy, a cycle walks away or stops before sending anything, and never buys |
| `Server.BuiltStateCycleNeverBuys` | server.js:164-252 | with a named strategy a cycle over the state it built never buys |
| `Server.ListedSellFollowsBuy` | server.js:218-249 | a trade ends listed only after the market buy of the choice; the limit sell is sent exactly after a fill, for what was bought, at the margin over the remembered price |
| `Server.MergeConfig` | server.js:330-346 | the POST `/config` merge: each truthy field replaces the current one, `isTesting` becomes the truthiness of the body's, and `maxOrders` is taken when not null and not NaN |
| `Server.MergeIdempotent` | server.js:330-346 | posting the same body twice has the effect of posting it once |
| `Server.MergeOwnConfigIsIdentity` | server.js:330-346 | posting back the reported configuration changes nothing when its testing flag is a boolean |
| `Server.EmptyBodyOnlyEndsTesting` | server.js:330-346 | an empty body changes only the testing flag, to false |
| `Server.ZeroOffers` | server.js:332-339 | an offered 0 is ignored for the margin but taken for `maxOrders`, which turns the order-count gate off |
| `Server.MaxOrdersNumerals` | server.js:339 | a non-numeral `maxOrders` is refused and a numeral string is taken as sent |
| `Server.RunReconcile` | server.js:194-252 | sends the orphan sale, then the rest of the cycle unless the sale threw |
| `Server.RunAfterCleanup` | server.js:197-252 | sends the unforced re-pricing pass, then the gated trade |
| `Server.RunGated` | server.js:212-236 | stops at the order limit, trades otherwise |
| `Server.RunTrade` | server.js:218-249 | `executeBuy`, then one sell attempt when a buy order came back |
| `Server.ListBought` | server.js:241-249 | one `executeSell` attempt at the margin over the remembered buy price |
| `Server.Bot.constructor` | server.js:19-56 | the configuration comes from the command line, with a fresh tracker; no clock is set yet |
| `Server.Bot.Wake` | server.js:164-252 | runs `main`: builds the state, then ends and sends as `Cycle` gives; the tracker takes the listed balances and the prices of the products the walk reached, or keeps both when a listing fails; the first run sets the baseline to the portfolio value and later runs compute the gain against it; walk-away freezes and keeps the last reported state, any other outcome reports the built state |
| `Server.Bot.RunCycle` | server.js:172-252 | the gates of `main` in order, on the built state, with tracker values left as they were apart from the freeze |
| `Server.Bot.Tick` | server.js:57-69 | before the first POST `/config` there is no clock and a tick changes nothing, as does a tick while frozen; otherwise it runs `main` with the testing flag the last POST's body set: the outcome and requests are `Cycle`'s, walk-away freezes and keeps the last state, any other outcome leaves it unfrozen and reports the built state, and the tracker's balances, prices, baseline and gain move as in `Server.Bot.Wake` |
| `Server.Bot.DailyTick` | server.js:72-76 | the daily clock clears gain, baseline and freeze and takes the new ranking |
| `Server.Bot.PostConfig` | server.js:309-369 | merges the body, sets the testing flag to the truthiness of the body's, starts or restarts the clock with the merged wake time and reports the merged configuration |
| `Dashboard.GetPercentValue` | ui/js/functions.js:104-110 | `getPercentValue`: a number spelled in more than five characters is rounded to 3 decimals |
| `Dashboard.GetPercentValueClose` | ui/js/functions.js:104-110 | a number spelled in at most five characters is kept; any number moves by at most half a thousandth and keeps its sign |
| `Dashboard.GetPercentValueIdempotent` | ui/js/functions.js:104-110 | applying `getPercentValue` to its own result changes nothing |
| `Dashboard.SmallIntegersKept` | ui/js/functions.js:104-110 | integers from -9999 to 99999 are kept |
| `Dashboard.RebuiltShape` | ui/js/functions.js:30-36 | rebuilding an object key by key keeps every key in its place, each holding the value for its old entry |
| `Dashboard.RebuiltGet` | ui/js/functions.js:30-36 | a key of the rebuilt object holds the value for its old entry, and a missing key stays missing |
| `Dashboard.NullifyShape` | ui/js/functions.js:30-36 | `nullifyStateAttributes` has exactly the input's keys, in order, each holding null |
| `Dashboard.Page.constructor` | ui/js/functions.js:2-17 | the page starts with the declared state object |
| `Dashboard.Page.InitializeState` | ui/js/functions.js:112-130 | the state after the load is the one `Initialized` gives, and the method reports whether the loop ran to the end |
| `Dashboard.Page.SendConfig` | ui/js/functions.js:175-193 | the body holds one encoded field per state entry, in state order |
| `Dashboard.Page.OnChange` | ui/js/functions.js:75-91 | only `state[attr]` changes, to the flipped toggle or the entered value |
| `Dashboard.DecodeEntry` | ui/js/functions.js:113-129 | the load's decoding of one configuration entry; none where the load throws |
| `Dashboard.EncodeEntry` | ui/js/functions.js:177-193 | the save's encoding of one state entry |
| `Dashboard.IsTestingRoundTrip` | ui/js/functions.js:117 | `isTesting` is decoded to "on"/"off" by truthiness and sent back as `=== "on"` (line 181), so a boolean round-trips |
| `Dashboard.WakeTimeRoundTrip` | ui/js/functions.js:115 | "N" with unit s, m or h decodes to N and is sent back as "Nm" (line 179): minutes round-trip, hours and seconds do not |
| `Dashboard.NumericWakeTimeThrows` | ui/js/functions.js:115 | a numeric wake time makes the load throw |
| `Dashboard.PassThroughRoundTrip` | ui/js/functions.js:118-125 | `strategy`, `maxOrders`, `minRelVol` and `maxRSI` pass through unchanged both ways (lines 182-189) |
| `Dashboard.PercentRoundTrip` | ui/js/functions.js:126-128 | a fraction × 100 on load and ÷ 100 on save (lines 190-192) comes back within half a thousandth of a percent, and exactly when the percentage is spelled in at most five characters |
| `Dashboard.NonNumericPercent` | ui/js/functions.js:126-128 | a value that is not a number stays NaN both ways |
| `Dashboard.ThrowsIffNone` | ui/js/functions.js:113-129 | an entry throws exactly when it is the wake time without a shorthand |
| `Dashboard.InitializedCompletes` | ui/js/functions.js:113-129 | the load runs to the end exactly when no entry throws |
| `Dashboard.InitializedKeepsUnique` | ui/js/functions.js:113-129 | the load keeps the state's keys unique |
| `Dashboard.InitializedGet` | ui/js/functions.js:113-129 | after a complete load each configuration key holds its decoded value and every other key is unchanged |
| `Dashboard.ConfigRoundTrip` | ui/js/functions.js:175-193 | saving after a complete load sends, under every configuration key, the encoding of its decoded value |
| `Dashboard.PayloadShape` | ui/js/functions.js:177-193 | the body has exactly the state's keys in the state's order |
| `Dashboard.LoadNeedsShorthand` | ui/js/functions.js:112-130 | loading the served configuration completes exactly when its wake time is a string with a shorthand, and otherwise leaves the state untouched |
| `Dashboard.DefaultStartupNeverLoads` | server.js:19 | a bot started without a wake-time argument serves a configuration the page never loads |
| `Dashboard.ChangeTouchesOnlyAttr` | ui/js/functions.js:75-91 | an event changes the entry under `attr` and no other |
| `Dashboard.ClickTwice` | ui/js/functions.js:80-83 | a click flips "on" and "off", and two clicks restore either |
| `Dashboard.Changed` | ui/js/functions.js:75-91 | the new value of `state[attr]`: a click flips "on" and "off", entered text goes through unary `+`, and text that is not a number is kept as text |
| `Dashboard.EnteredText` | ui/js/functions.js:84-87 | numeric text is stored as a number, white space around it ignored, other text as itself, an emptied field as 0 |

## Findings

| source | as written | input that shows it | evidently intended | confidence | as-written member | corrected member |
|---|---|---|---|---|---|---|
| server.js:114-115 | `sortByMetric` (src/lib/utils.js:50-56) sorts the keyed product object into its bare records, which carry no `id`; `getEligibleByStrategy` then calls `id.match` on `undefined` (server.js:80-81), throws, and `main` catches it as "no buy" (server.js:227-235) | any state holding a product, e.g. a `BTC-USD` record with `BTC` among the top coins and a strategy other than the six named ones | each product keeps its id, and the first eligible product in metric order is bought | not executed | `Server.AsWrittenMissesEligibleProducts` | `Server.BuyChoice` |

## Left out

- **Exchange, market-cap service and network.** Every exchange call is an input (tickers, stats, candle pages, open orders, order replies, poll results), and so is the top-coins list. This covers `CoinbaseFactory` and `fetch` in the page. Sent requests are an output log.
- **Timers and delays.** `wait`, `setTimeout`, the `interval-clock` timers and `getTimeRange` are left out. A tick and a daily tick are methods the caller invokes.
- **Numeric libraries.** `Math.sqrt` (inside `calculateVolatility`) and the regression library's slope are function parameters, taken as given.
- **Floating point.** Numbers are exact reals. `toFixed` is modelled as rounding half away from zero on exact decimals, so binary floating-point effects are not captured. A non-finite result (NaN or an infinity) is `None` and is not further distinguished.
- **Number spelling.** `Number#toString` of a number that is not an integer is a parameter (`show`); integers are spelled exactly.
- **Unary `+` parsing.** Unary `+` trims white space and reads signed decimal numerals; exponents, the hexadecimal, binary and octal prefixes and `Infinity` are not parsed.
- **JSON encoding.** Serialisation of request and response bodies is not modelled (NaN becoming `null`, `undefined` fields dropped).
- **Members with no definition in the code.** `MarketCapFactory`, `init`, `getAllOrders`, `abandonStale`, `setGain` and `getValue` are not defined anywhere. The order count `getAllOrders` would give is an input (`Exchange.orderCount`); `abandonStale` and the `/gain` and `/portfolio` routes are left out.
- **`MarketCapFactory`.** server.js imports `MarketCapFactory` (server.js:10), but src/factories/index.js does not export it (src/factories/index.js:322-327). So as written, `MarketCapFactory(process.env)` throws when the module loads (server.js:47), and no route, clock or cycle ever exists. The model assumes the server starts and that a top-coins list exists; that list is an input, given to `Server.Bot.constructor` and to `Server.Bot.DailyTick` and kept in `Bot.topCoins`.
- **`orderFactory.getAllOrders()`.** `main` calls `orderFactory.getAllOrders()` (server.js:176 and 212), which the order factory does not define, so as written the call would throw. The model assumes it answers the open orders and takes their number as an input (`Exchange.orderCount`).
- **`orderFactory.init()`.** `main` awaits `orderFactory.init()` (server.js:173), which the order factory does not define, so as written every cycle would throw there. The model assumes it succeeds and has no effect.
- **`orderFactory.abandonStale()`.** `main` awaits `orderFactory.abandonStale(orderTracker, maxRounds)` after the unforced re-pricing pass (server.js:200-203), which the order factory does not define, so as written every cycle that gets that far would throw there and never reach the order-count gate or the trade. The model assumes it succeeds, returns no orders and has no effect; the stale-order counter and the abandonment it would perform are not modelled.
- **Overlapping cycles.** The clock's tick handler calls `main()` without awaiting it (server.js:64), so a slow cycle can overlap the next. The model runs each cycle to completion before the next tick.
- **The unbounded sell retry in `main`.** `main` retries `executeSell` until it succeeds (server.js:237-246). The model makes one attempt. Two outcomes mark where the retry would try again: `BoughtAndListed(NeverFilled)`, where no poll saw a fill, and `BoughtAndListed(Listed(None))`, where the exchange rejected the limit sell and `executeSell` throws.
- **HTTP routes other than POST `/config`.** The routes and their responses are left out, including GET `/state` and the reporting of `lastOrders`.
- **The page's DOM.** `render`, `bootstrapInput`, `showConditionalControls`, `setNotification`, `setWalkButtons`, `window.onload` and console output are left out. The `strategy` branch of `onChange` only shows and hides controls, so it is not modelled.
- `StateBuilder.BuildState`: requires exchange answers the metrics can divide by (non-zero open and price, non-zero VWAPs), because a zero divisor gives a non-finite metric in the code and the model keeps metrics as reals.
- `Utils.CalcSize`: requires a non-zero price, for the same reason.
- `Orders.OrderFactory.Buy`: requires a non-zero price, for the same reason.
- `Orders.OrderFactory.Remargin`: requires margins other than -1, for the same reason.
- `Server.Bot.Wake`: requires the margins, stop margin and fraction to be numbers, with non-zero divisors. A configuration value that is a string, for example one set through POST `/config`, is not coerced in the order arithmetic.
- `Server.Bot.RunCycle`: has the same requirements as `Server.Bot.Wake`.
- `Server.ExecuteBuy`, `Server.BuyChoice`, `Utils.SortByMetric` and every cycle that trades follow the intended behaviour, not the code as written. As written, `_sortBy` over the keyed product object drops the ids, the top-coin filter throws on `id.match` of `undefined`, `main` catches the error, and no buy is placed. `buy` would also read the first field of a bare record instead of an id. The code as written is modelled separately by `Server.ChoiceFrom` with `idsKept == false` (see "## Findings").
- `Server.Bot.Tick`: has the same requirements as `Server.Bot.Wake`.
- `Orders.BuySizeOfIncrement`: the bound is stated through the number of decimals `setSigDig` reads from the increment string, not through the increment's numeric value.
