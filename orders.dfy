/** The order decisions of one wake cycle: the market buy, the margin limit sell, the pass that
    re-prices open sell orders, and the sale of holdings no order covers. What the exchange
    answers is passed in; what the bot asks of the exchange is appended to an action log. */
module Orders {
  import opened Js
  import opened Snapshot
  import opened Utils

  /** A request the bot sends to the exchange. The price of a limit sell is `None` when it came
      out NaN: no usable ticker price and no buy price to fall back on. */
  datatype Action =
    | MarketBuy(productId: string, size: real)
    | LimitSell(productId: string, price: Option<real>, size: real)
    | Cancel(orderId: string)

  /** The exchange's reply to an accepted order, as far as the bot reads it. A market buy's
      reply carries no price. */
  datatype PlacedOrder = PlacedOrder(id: string, productId: string, price: Option<real>, size: real)

  /** An open order as `getOrders` lists it, price and size read with unary `+`. */
  datatype OpenOrder = OpenOrder(id: string, productId: string, price: real, size: real)

  /** The margin of every sell the bot places on its own initiative (re-pricing, orphans). */
  const ResellMargin: real := 0.001

  // ---------------------------------------------------------------------------------------
  // Buy
  // ---------------------------------------------------------------------------------------

  /** The requests `buy` sends: one market buy of the size rounded to the product's increment
      when the raw size is strictly above the product minimum and does not round to 0, none
      otherwise. */
  function BuyRequests(productId: string, product: Product, cash: real, fraction: real): seq<Action>
    requires product.price != 0.0
  {
    BuyOfSize(productId, product, CalcSize(product.price, cash, fraction))
  }

  /** The second half of `buy`: the requests for a raw size already computed from the cash. */
  function BuyOfSize(productId: string, product: Product, raw: real): seq<Action>
  {
    var size := if IsValidSize(raw, product.min) then SetSigDig(raw, product.inc) else 0.0;
    if size == 0.0 then [] else [MarketBuy(productId, size)]
  }

  /** At a positive price the bot buys iff the cash it commits is worth more than the minimum
      size and the size does not round to 0, and then asks for exactly one market buy of that
      product at the rounded size. */
  lemma BuyDecision(productId: string, product: Product, cash: real, fraction: real)
    requires product.price > 0.0
    ensures var raw := CalcSize(product.price, cash, fraction);
            var r := BuyRequests(productId, product, cash, fraction);
            (r != [] <==> cash * fraction > product.min * product.price && SetSigDig(raw, product.inc) != 0.0)
            && (r != [] ==> r == [MarketBuy(productId, SetSigDig(raw, product.inc))])
  {
    BuyOfSizeDecision(productId, product, CalcSize(product.price, cash, fraction), cash * fraction);
  }

  /** The same decision for any size whose cost at the product's price is `cost`. */
  lemma BuyOfSizeDecision(productId: string, product: Product, raw: real, cost: real)
    requires product.price > 0.0 && raw * product.price == cost
    ensures var r := BuyOfSize(productId, product, raw);
            (r != [] <==> cost > product.min * product.price && SetSigDig(raw, product.inc) != 0.0)
            && (r != [] ==> r == [MarketBuy(productId, SetSigDig(raw, product.inc))])
  {
    ValidSizeIffWorthMore(raw, product.min, product.price, cost);
  }

  /** A valid size that rounds to 0 buys nothing: 0.004 is above a minimum of 0.0001, but
      at an increment of "0.01" it rounds to 0. */
  lemma TinySizeBuysNothing(productId: string, product: Product)
    requires product.min == 0.0001 && product.inc == "0.01"
    ensures IsValidSize(0.004, product.min)
    ensures BuyOfSize(productId, product, 0.004) == []
  {
    assert "0.01" == "0." + Zeros(1) + "1" + Zeros(0) by {
      assert Zeros(1) == "0" && Zeros(0) == "";
    }
    DecimalPlacesOfIncrement(2, 0);
    ToFixedTiny();
  }

  lemma ToFixedTiny()
    ensures ToFixed(0.004, 2) == 0.0
  {
    assert Pow10(2) == 100;
    assert (Abs(0.004) * 100.0 + 0.5).Floor == 0;
  }

  /** A size is above the minimum iff what it costs is above the minimum's cost. */
  lemma ValidSizeIffWorthMore(raw: real, min: real, price: real, cost: real)
    requires price > 0.0 && raw * price == cost
    ensures IsValidSize(raw, min) <==> cost > min * price
  {
    if raw > min {
      MulStrict(raw, min, price);
    } else {
      MulMono(raw, min, price);
    }
  }

  lemma MulStrict(a: real, b: real, c: real)
    requires a > b && c > 0.0
    ensures a * c > b * c
  {
  }

  lemma MulMono(a: real, b: real, c: real)
    requires a <= b && c > 0.0
    ensures a * c <= b * c
  {
  }

  /** With a minimum of at least half an increment (an increment with `d` decimals is
      `10^-d`; `DecimalPlacesOfIncrement`: "0.001" and "0.0010000" have 3), an order the bot
      places for any raw size (in `BuyRequests`, the one `CalcSize` computes) has a positive
      size within half an increment of the raw size. */
  lemma BuySizeOfIncrement(productId: string, product: Product, raw: real)
    requires product.min >= HalfUnit(DecimalPlaces(product.inc))
    ensures var r := BuyOfSize(productId, product, raw);
            r != [] ==> r[0].size > 0.0 && Abs(r[0].size - raw) <= HalfUnit(DecimalPlaces(product.inc))
  {
    SetSigDigClose(raw, product.inc);
    if raw > product.min {
      SetSigDigAboveMinimum(raw, product.inc, product.min);
    }
  }

  /** Rounding a size moves it by at most half an increment. */
  lemma SetSigDigClose(raw: real, inc: string)
    ensures Abs(SetSigDig(raw, inc) - raw) <= HalfUnit(DecimalPlaces(inc))
  {
    ToFixedClose(raw, DecimalPlaces(inc));
  }

  /** Rounding a size above a minimum of at least half an increment keeps it positive. */
  lemma SetSigDigAboveMinimum(raw: real, inc: string, min: real)
    requires raw > min && min >= HalfUnit(DecimalPlaces(inc))
    ensures SetSigDig(raw, inc) > 0.0
  {
    ToFixedPositive(raw, DecimalPlaces(inc));
  }

  // ---------------------------------------------------------------------------------------
  // Sell
  // ---------------------------------------------------------------------------------------

  /** `price || targetPrice`: the given price unless it is 0 or missing, else the last buy
      price. */
  function Basis(price: Option<real>, targetPrice: Option<real>): (r: Option<real>)
    ensures price.Some? && price.value != 0.0 ==> r == price
    ensures (price.None? || price.value == 0.0) ==> r == targetPrice
  {
    if price.Some? && price.value != 0.0 then price else targetPrice
  }

  /** The limit price of `sell`: the basis raised by `margin`, written with two decimals; NaN
      when there is no basis. */
  function SellPrice(price: Option<real>, targetPrice: Option<real>, margin: real): (r: Option<real>)
    ensures r.None? <==> Basis(price, targetPrice).None?
  {
    match Basis(price, targetPrice)
    case None => None
    case Some(b) => Some(ToFixed(CalcLimitPrice(b, margin), 2))
  }

  /** The limit price lies within half a cent of the basis raised by the margin, and a positive
      basis with a margin above -1 never gives a negative price. */
  lemma SellPriceNear(price: Option<real>, targetPrice: Option<real>, margin: real)
    ensures var r := SellPrice(price, targetPrice, margin);
            r.Some? ==> var b := Basis(price, targetPrice).value;
                        Abs(r.value - b * (1.0 + margin)) <= 0.005
                        && (b > 0.0 && margin > -1.0 ==> r.value >= 0.0)
  {
    if Basis(price, targetPrice).Some? {
      var b := Basis(price, targetPrice).value;
      ToFixedClose(CalcLimitPrice(b, margin), 2);
      assert HalfUnit(2) == 0.005 by { assert HalfUnit(1) == 0.05; }
      if b > 0.0 && margin > -1.0 {
        MulStrict(1.0 + margin, 0.0, b);
        assert b * (1.0 + margin) > 0.0;
      }
    }
  }

  // ---------------------------------------------------------------------------------------
  // Re-pricing open orders
  // ---------------------------------------------------------------------------------------

  /** What the exchange answers while `remargin` handles one open order: the ticker price
      (`None` when the request fails), whether the cancel went through, and the reply to the
      replacement sell (`None` when it is refused). */
  datatype Quote = Quote(ticker: Option<real>, cancelled: bool, reply: Option<PlacedOrder>)

  /** `remargin`'s test: the order goes when forced, or when the ticker has fallen to the stop
      price, the buy price recovered from the limit price lowered by `stopMargin`. */
  predicate ShouldReplace(limit: real, ticker: real, margin: real, stopMargin: real, force: bool)
    requires 1.0 + margin != 0.0 && 1.0 + stopMargin != 0.0
  {
    force || ticker <= (limit / (1.0 + margin)) / (1.0 + stopMargin)
  }

  /** With margins above -1 the stop test is the same as comparing the ticker, raised by both
      margins, with the limit price. */
  lemma ShouldReplaceScaled(limit: real, ticker: real, margin: real, stopMargin: real, force: bool)
    requires 1.0 + margin > 0.0 && 1.0 + stopMargin > 0.0
    ensures ShouldReplace(limit, ticker, margin, stopMargin, force)
        <==> force || ticker * (1.0 + margin) * (1.0 + stopMargin) <= limit
  {
    var a, b := 1.0 + margin, 1.0 + stopMargin;
    LeDiv(ticker, limit / a, b);
    LeDiv(ticker * b, limit, a);
    assert ticker * b * a == ticker * a * b;
  }

  lemma LeDiv(x: real, y: real, c: real)
    requires c > 0.0
    ensures x <= y / c <==> x * c <= y
  {
    assert (y / c) * c == y;
    if x <= y / c {
      MulMono(x, y / c, c);
    } else {
      MulStrict(x, y / c, c);
    }
  }

  /** The outcome of a re-pricing pass: the requests sent, the replacement orders the exchange
      accepted (what `remargin` returns), and whether a failure has ended the pass. */
  datatype Pass = Pass(requests: seq<Action>, resold: seq<PlacedOrder>, stopped: bool)

  /** One order of the pass. A failed ticker request, a failed cancel or a refused sell ends
      the pass; the requests already sent stay sent. */
  function RemarginStep(p: Pass, o: OpenOrder, q: Quote, margin: real, stopMargin: real, force: bool,
                        targetPrice: Option<real>): Pass
    requires 1.0 + margin != 0.0 && 1.0 + stopMargin != 0.0
  {
    if p.stopped then p
    else if q.ticker.None? then p.(stopped := true)
    else if !ShouldReplace(o.price, q.ticker.value, margin, stopMargin, force) then p
    else if !q.cancelled then p.(requests := p.requests + [Cancel(o.id)], stopped := true)
    else
      var sell := LimitSell(o.productId, SellPrice(q.ticker, targetPrice, ResellMargin), o.size);
      match q.reply
      case None => p.(requests := p.requests + [Cancel(o.id), sell], stopped := true)
      case Some(placed) => Pass(p.requests + [Cancel(o.id), sell], p.resold + [placed], false)
  }

  /** The pass over the first `k` open orders, in the order `getOrders` lists them. */
  function RemarginPass(orders: seq<OpenOrder>, quotes: seq<Quote>, k: nat, margin: real, stopMargin: real,
                        force: bool, targetPrice: Option<real>): Pass
    requires k <= |orders| && k <= |quotes|
    requires 1.0 + margin != 0.0 && 1.0 + stopMargin != 0.0
  {
    if k == 0 then Pass([], [], false)
    else RemarginStep(RemarginPass(orders, quotes, k - 1, margin, stopMargin, force, targetPrice),
                      orders[k - 1], quotes[k - 1], margin, stopMargin, force, targetPrice)
  }

  /** Once a failure has ended the pass, the later orders change nothing. */
  lemma {:induction false} RemarginStopsAtFailure(orders: seq<OpenOrder>, quotes: seq<Quote>, j: nat, k: nat,
                                                  margin: real, stopMargin: real, force: bool, targetPrice: Option<real>)
    requires j <= k <= |orders| && k <= |quotes|
    requires 1.0 + margin != 0.0 && 1.0 + stopMargin != 0.0
    requires RemarginPass(orders, quotes, j, margin, stopMargin, force, targetPrice).stopped
    ensures RemarginPass(orders, quotes, k, margin, stopMargin, force, targetPrice)
         == RemarginPass(orders, quotes, j, margin, stopMargin, force, targetPrice)
    decreases k - j
  {
    if j < k {
      RemarginStopsAtFailure(orders, quotes, j, k - 1, margin, stopMargin, force, targetPrice);
    }
  }

  /** The request at `j` is a sell placed right after cancelling one of the first `k` orders,
      for that order's product and size. */
  predicate ReplacesOrder(r: seq<Action>, j: int, orders: seq<OpenOrder>, k: nat)
    requires 0 <= j < |r|
  {
    0 < j && r[j].LimitSell?
    && exists i :: 0 <= i < k && i < |orders| && r[j - 1] == Cancel(orders[i].id)
                   && r[j].productId == orders[i].productId && r[j].size == orders[i].size
  }

  predicate SellsReplaceOrders(r: seq<Action>, orders: seq<OpenOrder>, k: nat)
  {
    forall j :: 0 <= j < |r| && r[j].LimitSell? ==> ReplacesOrder(r, j, orders, k)
  }

  /** Every sell of a pass directly follows the cancel of an open order of the same product and
      size: a pass never leaves two sells out for one holding. */
  lemma {:induction false} RemarginCancelsFirst(orders: seq<OpenOrder>, quotes: seq<Quote>, k: nat,
                                                margin: real, stopMargin: real, force: bool, targetPrice: Option<real>)
    requires k <= |orders| && k <= |quotes|
    requires 1.0 + margin != 0.0 && 1.0 + stopMargin != 0.0
    ensures SellsReplaceOrders(RemarginPass(orders, quotes, k, margin, stopMargin, force, targetPrice).requests, orders, k)
  {
    if k > 0 {
      RemarginCancelsFirst(orders, quotes, k - 1, margin, stopMargin, force, targetPrice);
      var p := RemarginPass(orders, quotes, k - 1, margin, stopMargin, force, targetPrice);
      var prev := p.requests;
      var r := RemarginPass(orders, quotes, k, margin, stopMargin, force, targetPrice).requests;
      var o, q := orders[k - 1], quotes[k - 1];
      assert SellsReplaceOrders(prev, orders, k - 1);
      assert r == prev || r == prev + [Cancel(o.id)]
          || r == prev + [Cancel(o.id), LimitSell(o.productId, SellPrice(q.ticker, targetPrice, ResellMargin), o.size)];
      forall j | 0 <= j < |r| && r[j].LimitSell? ensures ReplacesOrder(r, j, orders, k) {
        if j < |prev| {
          assert r[j] == prev[j] && prev[j].LimitSell?;
          assert ReplacesOrder(prev, j, orders, k - 1);
          assert r[j - 1] == prev[j - 1];
          var i :| 0 <= i < k - 1 && i < |orders| && prev[j - 1] == Cancel(orders[i].id)
                   && prev[j].productId == orders[i].productId && prev[j].size == orders[i].size;
        } else {
          assert j == |prev| + 1 && r[j - 1] == Cancel(o.id);
        }
      }
    }
  }

  /** Forced, with an exchange that answers every request, the pass cancels and replaces every
      open order in listing order and returns every replacement. */
  lemma {:induction false} ForcedPassReplacesAll(orders: seq<OpenOrder>, quotes: seq<Quote>, k: nat,
                                                 margin: real, stopMargin: real, targetPrice: Option<real>)
    requires k <= |orders| && k <= |quotes|
    requires 1.0 + margin != 0.0 && 1.0 + stopMargin != 0.0
    requires forall i :: 0 <= i < k ==> quotes[i].ticker.Some? && quotes[i].cancelled && quotes[i].reply.Some?
    ensures var p := RemarginPass(orders, quotes, k, margin, stopMargin, true, targetPrice);
            !p.stopped && |p.resold| == k && |p.requests| == 2 * k
            && (forall i :: 0 <= i < k ==> p.resold[i] == quotes[i].reply.value)
            && (forall i :: 0 <= i < k ==> p.requests[2 * i] == Cancel(orders[i].id))
            && (forall i :: 0 <= i < k ==>
                  p.requests[2 * i + 1] == LimitSell(orders[i].productId, SellPrice(quotes[i].ticker, targetPrice, ResellMargin), orders[i].size))
  {
    if k > 0 {
      ForcedPassReplacesAll(orders, quotes, k - 1, margin, stopMargin, targetPrice);
      var prev := RemarginPass(orders, quotes, k - 1, margin, stopMargin, true, targetPrice);
      var p := RemarginPass(orders, quotes, k, margin, stopMargin, true, targetPrice);
      assert p.requests[..2 * (k - 1)] == prev.requests;
      assert p.resold[..k - 1] == prev.resold;
      forall i | 0 <= i < k - 1
        ensures p.resold[i] == quotes[i].reply.value && p.requests[2 * i] == Cancel(orders[i].id)
        ensures p.requests[2 * i + 1] == LimitSell(orders[i].productId, SellPrice(quotes[i].ticker, targetPrice, ResellMargin), orders[i].size)
      {
        assert p.resold[i] == prev.resold[i];
        assert p.requests[2 * i] == prev.requests[2 * i];
        assert p.requests[2 * i + 1] == prev.requests[2 * i + 1];
      }
    }
  }

  /** Unforced, a pass over orders whose tickers all stay above their stop prices sends nothing
      and replaces nothing. */
  lemma {:induction false} PassAboveStopIsQuiet(orders: seq<OpenOrder>, quotes: seq<Quote>, k: nat,
                                                margin: real, stopMargin: real, targetPrice: Option<real>)
    requires k <= |orders| && k <= |quotes|
    requires 1.0 + margin > 0.0 && 1.0 + stopMargin > 0.0
    requires forall i :: 0 <= i < k ==>
      quotes[i].ticker.Some? && quotes[i].ticker.value * (1.0 + margin) * (1.0 + stopMargin) > orders[i].price
    ensures RemarginPass(orders, quotes, k, margin, stopMargin, false, targetPrice) == Pass([], [], false)
  {
    if k > 0 {
      PassAboveStopIsQuiet(orders, quotes, k - 1, margin, stopMargin, targetPrice);
      ShouldReplaceScaled(orders[k - 1].price, quotes[k - 1].ticker.value, margin, stopMargin, false);
    }
  }

  /** Re-pricing is not settled for cheap coins: at a ticker of 0.145 the replacement's limit
      rounds to 0.15, and with a 1% margin and a 0.5% stop margin the very next pass finds that
      new order under its stop price and replaces it again. */
  lemma ReplacementCanRepeat()
    ensures SellPrice(Some(0.145), None, ResellMargin) == Some(0.15)
    ensures ShouldReplace(0.15, 0.145, 0.01, 0.005, false)
  {
    assert Pow10(2) == 100 by { assert Pow10(1) == 10; }
    RoundMagnitudeOf(CalcLimitPrice(0.145, ResellMargin), 100.0, 15);
  }

  /** A replacement does settle once the ticker is large enough for the margins to outweigh
      half a cent of rounding: the next pass at the same ticker leaves it alone. */
  lemma ReplacementSettles(ticker: real, margin: real, stopMargin: real)
    requires ticker > 0.0 && 1.0 + margin > 0.0 && 1.0 + stopMargin > 0.0
    requires (ticker * (1.0 + margin) * (1.0 + stopMargin) - ticker * (1.0 + ResellMargin)) * 100.0 > 0.5
    ensures SellPrice(Some(ticker), None, ResellMargin).Some?
    ensures !ShouldReplace(SellPrice(Some(ticker), None, ResellMargin).value, ticker, margin, stopMargin, false)
  {
    SellPriceNear(Some(ticker), None, ResellMargin);
    var limit := SellPrice(Some(ticker), None, ResellMargin).value;
    assert (limit - ticker * (1.0 + ResellMargin)) * 100.0 <= 0.5;
    ShouldReplaceScaled(limit, ticker, margin, stopMargin, false);
  }

  // ---------------------------------------------------------------------------------------
  // Orphaned holdings
  // ---------------------------------------------------------------------------------------

  /** What the exchange answers while `cleanOrphans` handles one holding: the ticker price
      (`None` when the request fails) and the reply to the sell, if one is placed. */
  datatype OrphanQuote = OrphanQuote(ticker: Option<real>, reply: Option<PlacedOrder>)

  /** The requests sent so far and whether a failed ticker request has thrown out of the loop. */
  datatype Cleanup = Cleanup(requests: seq<Action>, aborted: bool)

  function UsdProduct(currency: string): string
  {
    currency + "-USD"
  }

  /** A holding is sold when its USD product is known and the amount reaches the product
      minimum; an unknown product is skipped (the lookup throws inside the `try`). */
  predicate Sellable(holding: (string, real), products: Dict<Product>)
  {
    var p := Get(products, UsdProduct(holding.0));
    p.Some? && holding.1 >= p.value.min
  }

  function OrphanSell(holding: (string, real), q: OrphanQuote, targetPrice: Option<real>): Action
  {
    LimitSell(UsdProduct(holding.0), SellPrice(q.ticker, targetPrice, ResellMargin), holding.1)
  }

  /** One holding. The ticker request sits outside the `try`, so its failure ends the whole
      call; a refused sell is caught and the loop goes on. */
  function CleanupStep(c: Cleanup, holding: (string, real), products: Dict<Product>, q: OrphanQuote,
                       targetPrice: Option<real>): Cleanup
  {
    if c.aborted then c
    else if q.ticker.None? then c.(aborted := true)
    else if Sellable(holding, products) then c.(requests := c.requests + [OrphanSell(holding, q, targetPrice)])
    else c
  }

  function CleanupPass(crypto: Dict<real>, products: Dict<Product>, quotes: seq<OrphanQuote>, k: nat,
                       targetPrice: Option<real>): Cleanup
    requires k <= |crypto| && k <= |quotes|
  {
    if k == 0 then Cleanup([], false)
    else CleanupStep(CleanupPass(crypto, products, quotes, k - 1, targetPrice), crypto[k - 1], products,
                     quotes[k - 1], targetPrice)
  }

  /** The request is the sale of a whole holding among the first `k` that reaches its product
      minimum. */
  predicate SellsSellableHolding(a: Action, crypto: Dict<real>, products: Dict<Product>, quotes: seq<OrphanQuote>,
                                 k: nat, targetPrice: Option<real>)
  {
    exists i :: 0 <= i < k && i < |crypto| && i < |quotes| && Sellable(crypto[i], products)
                && a == OrphanSell(crypto[i], quotes[i], targetPrice)
  }

  /** Every request of the cleanup sells a whole holding that reaches its product minimum. */
  lemma {:induction false} CleanupSellsOnlySellable(crypto: Dict<real>, products: Dict<Product>, quotes: seq<OrphanQuote>,
                                                    k: nat, targetPrice: Option<real>)
    requires k <= |crypto| && k <= |quotes|
    ensures var r := CleanupPass(crypto, products, quotes, k, targetPrice).requests;
            forall a :: a in r ==> SellsSellableHolding(a, crypto, products, quotes, k, targetPrice)
  {
    if k > 0 {
      CleanupSellsOnlySellable(crypto, products, quotes, k - 1, targetPrice);
      var prev := CleanupPass(crypto, products, quotes, k - 1, targetPrice).requests;
      var r := CleanupPass(crypto, products, quotes, k, targetPrice).requests;
      assert r == prev || r == prev + [OrphanSell(crypto[k - 1], quotes[k - 1], targetPrice)];
      forall a | a in r ensures SellsSellableHolding(a, crypto, products, quotes, k, targetPrice) {
        if a in prev {
          assert SellsSellableHolding(a, crypto, products, quotes, k - 1, targetPrice);
          var i :| 0 <= i < k - 1 && i < |crypto| && i < |quotes| && Sellable(crypto[i], products)
                   && a == OrphanSell(crypto[i], quotes[i], targetPrice);
        } else {
          assert a == OrphanSell(crypto[k - 1], quotes[k - 1], targetPrice);
        }
      }
    }
  }

  /** With every ticker answered the cleanup runs to the end and sells every holding that
      reaches its product minimum. */
  lemma {:induction false} CleanupSellsEverySellable(crypto: Dict<real>, products: Dict<Product>, quotes: seq<OrphanQuote>,
                                                     k: nat, targetPrice: Option<real>)
    requires k <= |crypto| && k <= |quotes|
    requires forall i :: 0 <= i < k ==> quotes[i].ticker.Some?
    ensures var c := CleanupPass(crypto, products, quotes, k, targetPrice);
            !c.aborted && forall i :: 0 <= i < k && Sellable(crypto[i], products) ==>
                                     OrphanSell(crypto[i], quotes[i], targetPrice) in c.requests
  {
    if k > 0 {
      CleanupSellsEverySellable(crypto, products, quotes, k - 1, targetPrice);
      var prev := CleanupPass(crypto, products, quotes, k - 1, targetPrice).requests;
      var r := CleanupPass(crypto, products, quotes, k, targetPrice).requests;
      var last := OrphanSell(crypto[k - 1], quotes[k - 1], targetPrice);
      assert r == if Sellable(crypto[k - 1], products) then prev + [last] else prev;
      forall i | 0 <= i < k - 1 && Sellable(crypto[i], products)
        ensures OrphanSell(crypto[i], quotes[i], targetPrice) in r
      {
        assert OrphanSell(crypto[i], quotes[i], targetPrice) in prev;
      }
    }
  }

  /** The cleanup's minimum is inclusive while `buy`'s is strict: an amount equal to the
      minimum is sold, yet a buy of exactly that size would be refused. */
  lemma MinimumIsSoldNotBought(currency: string, products: Dict<Product>)
    requires Get(products, UsdProduct(currency)).Some?
    ensures var m := Get(products, UsdProduct(currency)).value.min;
            Sellable((currency, m), products) && !IsValidSize(m, m)
  {
  }

  // ---------------------------------------------------------------------------------------
  // The factory
  // ---------------------------------------------------------------------------------------

  /** An `OrderFactory` instance: `targetPrice` is the closure variable `buy` sets, `log` the
      requests the instance has sent. */
  class OrderFactory {
    var targetPrice: Option<real>
    var log: seq<Action>

    constructor ()
      ensures targetPrice == None && log == []
    {
      targetPrice, log := None, [];
    }

    /** `buy`: remembers the price, then places a market buy of the rounded size when the raw
        size is valid and answers the exchange's reply; otherwise answers null. A refused
        order also answers `None`. */
    method Buy(productId: string, product: Product, cash: real, fraction: real, reply: Option<PlacedOrder>)
      returns (order: Option<PlacedOrder>)
      requires product.price != 0.0
      modifies this
      ensures targetPrice == Some(product.price)
      ensures log == old(log) + BuyRequests(productId, product, cash, fraction)
      ensures order == if BuyRequests(productId, product, cash, fraction) == [] then None else reply
    {
      targetPrice := Some(product.price);
      var rawSize := CalcSize(product.price, cash, fraction);
      var isValid := IsValidSize(rawSize, product.min);
      var size := if isValid then SetSigDig(rawSize, product.inc) else 0.0;
      if size == 0.0 {
        return None;
      }
      log := log + [MarketBuy(productId, size)];
      order := reply;
    }

    /** `sell`: one limit sell at the price `SellPrice` gives; `targetPrice` is only read. */
    method Sell(price: Option<real>, size: real, productId: string, margin: real, reply: Option<PlacedOrder>)
      returns (order: Option<PlacedOrder>)
      modifies this
      ensures targetPrice == old(targetPrice)
      ensures log == old(log) + [LimitSell(productId, SellPrice(price, targetPrice, margin), size)]
      ensures order == reply
    {
      var basis := if price.Some? && price.value != 0.0 then price else targetPrice;
      var limitPrice := if basis.Some? then Some(ToFixed(CalcLimitPrice(basis.value, margin), 2)) else None;
      log := log + [LimitSell(productId, limitPrice, size)];
      order := reply;
    }

    /** `remargin`: walks the open orders (none when listing them fails) and replaces each one
        that is forced or under its stop price, stopping at the first failure. */
    method Remargin(margin: real, stopMargin: real, force: bool, listed: Option<seq<OpenOrder>>, quotes: seq<Quote>)
      returns (resold: seq<PlacedOrder>)
      requires 1.0 + margin != 0.0 && 1.0 + stopMargin != 0.0
      requires listed.Some? ==> |quotes| == |listed.value|
      modifies this
      ensures targetPrice == old(targetPrice)
      ensures listed.None? ==> resold == [] && log == old(log)
      ensures listed.Some? ==>
        var p := RemarginPass(listed.value, quotes, |listed.value|, margin, stopMargin, force, targetPrice);
        resold == p.resold && log == old(log) + p.requests
    {
      resold := [];
      if listed.None? {
        return;
      }
      var orders := listed.value;
      var i := 0;
      var stopped := false;
      while i < |orders| && !stopped
        invariant 0 <= i <= |orders|
        invariant targetPrice == old(targetPrice)
        invariant var p := RemarginPass(orders, quotes, i, margin, stopMargin, force, targetPrice);
                  resold == p.resold && log == old(log) + p.requests && stopped == p.stopped
      {
        var o, q := orders[i], quotes[i];
        if q.ticker.None? {
          stopped := true;
        } else {
          var originalPrice := o.price / (1.0 + margin);
          var stopPrice := originalPrice / (1.0 + stopMargin);
          var shouldStop := force || q.ticker.value <= stopPrice;
          if shouldStop {
            log := log + [Cancel(o.id)];
            if !q.cancelled {
              stopped := true;
            } else {
              var placed := Sell(q.ticker, o.size, o.productId, ResellMargin, q.reply);
              if placed.None? {
                stopped := true;
              } else {
                resold := resold + [placed.value];
              }
            }
          }
        }
        i := i + 1;
      }
      if stopped {
        RemarginStopsAtFailure(orders, quotes, i, |orders|, margin, stopMargin, force, targetPrice);
      }
    }

    /** `cleanOrphans`: offers every holding that reaches its product minimum for sale.
        `completed` is false when a ticker request failed and threw out of the call. */
    method CleanOrphans(crypto: Dict<real>, products: Dict<Product>, quotes: seq<OrphanQuote>)
      returns (completed: bool)
      requires |quotes| == |crypto|
      modifies this
      ensures targetPrice == old(targetPrice)
      ensures var c := CleanupPass(crypto, products, quotes, |crypto|, targetPrice);
              completed == !c.aborted && log == old(log) + c.requests
    {
      var i := 0;
      completed := true;
      while i < |crypto| && completed
        invariant 0 <= i <= |crypto|
        invariant targetPrice == old(targetPrice)
        invariant var c := CleanupPass(crypto, products, quotes, i, targetPrice);
                  completed == !c.aborted && log == old(log) + c.requests
      {
        var (currency, amount) := crypto[i];
        var productId := currency + "-USD";
        var q := quotes[i];
        if q.ticker.None? {
          completed := false;
        } else {
          match Get(products, productId)
          case None =>
          case Some(product) =>
            if amount >= product.min {
              var _ := Sell(q.ticker, amount, productId, ResellMargin, q.reply);
            }
        }
        i := i + 1;
      }
      if !completed {
        CleanupStopsAtFailure(crypto, products, quotes, i, |crypto|, targetPrice);
      }
    }
  }

  lemma {:induction false} CleanupStopsAtFailure(crypto: Dict<real>, products: Dict<Product>, quotes: seq<OrphanQuote>,
                                                 j: nat, k: nat, targetPrice: Option<real>)
    requires j <= k <= |crypto| && k <= |quotes|
    requires CleanupPass(crypto, products, quotes, j, targetPrice).aborted
    ensures CleanupPass(crypto, products, quotes, k, targetPrice) == CleanupPass(crypto, products, quotes, j, targetPrice)
    decreases k - j
  {
    if j < k {
      CleanupStopsAtFailure(crypto, products, quotes, j, k - 1, targetPrice);
    }
  }
}
