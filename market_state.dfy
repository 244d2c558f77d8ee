/** The state builder run at every wake-up: it reads the accounts and the product list, keeps
    the tradable USD products, fetches each one's candle history with a bounded retry and
    derives the per-product metrics the strategies rank by. */
module StateBuilder {
  import opened Js
  import opened Snapshot
  import opened Utils
  import opened Portfolio

  /** A row of the exchange's product list: `id`, `base_increment`, `base_min_size` and
      `limit_only`. */
  datatype ExchangeProduct = ExchangeProduct(id: string, inc: string, min: real, limitOnly: bool)

  // ---------------------------------------------------------------------------------------
  // Holdings, cash and tradable products
  // ---------------------------------------------------------------------------------------

  /** The `crypto` object: over the non-USD accounts, a currency with a positive `available`
      is written with that amount (a later such row overwriting); other rows are skipped. */
  function CryptoHoldings(accounts: seq<Account>): (r: Dict<real>)
    ensures UniqueKeys(r)
  {
    if accounts == [] then []
    else
      var acc := CryptoHoldings(accounts[..|accounts| - 1]);
      var last := accounts[|accounts| - 1];
      if last.currency != "USD" && last.available > 0.0 then
        PutKeepsUnique(acc, last.currency, last.available);
        Put(acc, last.currency, last.available)
      else acc
  }

  /** The holdings are exactly the non-USD currencies with a row whose `available` is positive,
      each held in an amount some such row reports. */
  lemma {:induction false} CryptoHoldingsExactly(accounts: seq<Account>, c: string)
    ensures c in Keys(CryptoHoldings(accounts)) <==>
      c != "USD" && exists i :: 0 <= i < |accounts| && accounts[i].currency == c && accounts[i].available > 0.0
    ensures Get(CryptoHoldings(accounts), c).Some? ==>
      exists i :: 0 <= i < |accounts| && accounts[i].currency == c && accounts[i].available == Get(CryptoHoldings(accounts), c).value > 0.0
    decreases |accounts|
  {
    if accounts != [] {
      var init, last := accounts[..|accounts| - 1], accounts[|accounts| - 1];
      CryptoHoldingsExactly(init, c);
      var acc := CryptoHoldings(init);
      if last.currency != "USD" && last.available > 0.0 {
        PutSpec(acc, last.currency, last.available);
      }
      if exists i :: 0 <= i < |init| && init[i].currency == c && init[i].available > 0.0 {
        var i :| 0 <= i < |init| && init[i].currency == c && init[i].available > 0.0;
        assert accounts[i] == init[i];
      }
      if exists i :: 0 <= i < |accounts| && accounts[i].currency == c && accounts[i].available > 0.0 {
        var i :| 0 <= i < |accounts| && accounts[i].currency == c && accounts[i].available > 0.0;
        if i < |init| {
          assert init[i] == accounts[i];
        }
      }
      if Get(CryptoHoldings(accounts), c).Some? && Get(CryptoHoldings(accounts), c) == Get(acc, c) {
        var i :| 0 <= i < |init| && init[i].currency == c && init[i].available == Get(acc, c).value > 0.0;
        assert accounts[i] == init[i];
      }
    }
  }

  /** `account.find(...)`: the first USD row. */
  function FirstUsd(accounts: seq<Account>): (r: Option<Account>)
    ensures r.Some? ==> r.value in accounts && r.value.currency == "USD"
    ensures r.None? <==> forall i :: 0 <= i < |accounts| ==> accounts[i].currency != "USD"
  {
    if accounts == [] then None
    else if accounts[0].currency == "USD" then Some(accounts[0])
    else FirstUsd(accounts[1..])
  }

  /** `cash`: the first USD row's `available`, or 0 (`|| 0`) when there is none or it is 0. */
  function Cash(accounts: seq<Account>): (r: real)
    ensures FirstUsd(accounts).None? ==> r == 0.0
    ensures FirstUsd(accounts).Some? ==> r == FirstUsd(accounts).value.available
  {
    match FirstUsd(accounts)
    case None => 0.0
    case Some(usd) => if usd.available != 0.0 then usd.available else 0.0
  }

  predicate EndsWith(s: string, suffix: string)
  {
    |s| >= |suffix| && s[|s| - |suffix|..] == suffix
  }

  /** The tradable products: ids matching `USD$` that are not limit-only, in list order. */
  function TargetProducts(products: seq<ExchangeProduct>): (r: seq<ExchangeProduct>)
    ensures forall p :: p in r <==> p in products && EndsWith(p.id, "USD") && !p.limitOnly
    ensures |r| <= |products|
  {
    if products == [] then []
    else
      (if EndsWith(products[0].id, "USD") && !products[0].limitOnly then [products[0]] else [])
      + TargetProducts(products[1..])
  }

  /** The filter keeps the list order: filtering a concatenation filters each part. */
  lemma {:induction false} TargetProductsOfConcat(a: seq<ExchangeProduct>, b: seq<ExchangeProduct>)
    ensures TargetProducts(a + b) == TargetProducts(a) + TargetProducts(b)
    decreases |a|
  {
    if a != [] {
      assert (a + b)[1..] == a[1..] + b;
      TargetProductsOfConcat(a[1..], b);
    } else {
      assert a + b == b;
    }
  }

  // ---------------------------------------------------------------------------------------
  // Candle history with bounded retry
  // ---------------------------------------------------------------------------------------

  /** How many times the history request is tried at most. */
  const MaxHistoryAttempts := 50

  /** One answer of the history endpoint: `None` when the request throws, else the rows,
      newest first. */
  type HistoryAnswer = Option<seq<Candle>>

  /** The answer to attempt `k`; attempts past the supplied answers throw. */
  function AnswerAt(answers: seq<HistoryAnswer>, k: nat): HistoryAnswer
  {
    if k < |answers| then answers[k] else None
  }

  /** `_reverse`: oldest first. */
  function Reverse(rows: seq<Candle>): (r: seq<Candle>)
    ensures |r| == |rows|
  {
    if rows == [] then [] else Reverse(rows[1..]) + [rows[0]]
  }

  /** The reversed rows hold the rows in the opposite order. */
  lemma {:induction false} ReverseReverses(rows: seq<Candle>)
    ensures forall i :: 0 <= i < |rows| ==> Reverse(rows)[i] == rows[|rows| - 1 - i]
  {
    if rows != [] {
      ReverseReverses(rows[1..]);
    }
  }

  /** The history the retry loop ends with when it reaches attempt `k` still empty-handed: the
      reversed rows of the first later attempt (below the cap) that returns some, else none. */
  function HistoryFrom(answers: seq<HistoryAnswer>, k: nat): (r: seq<Candle>)
    decreases MaxHistoryAttempts - k
  {
    if k >= MaxHistoryAttempts then []
    else if AnswerAt(answers, k).Some? && AnswerAt(answers, k).value != [] then Reverse(AnswerAt(answers, k).value)
    else HistoryFrom(answers, k + 1)
  }

  /** The retry loop of the state builder: request the history until a non-empty page arrives
      or 50 attempts are used; a throwing request counts as an attempt. */
  method FetchHistory(answers: seq<HistoryAnswer>) returns (history: seq<Candle>, attempts: nat)
    ensures history == HistoryFrom(answers, 0)
    ensures 1 <= attempts <= MaxHistoryAttempts
    ensures history != [] ==>
      AnswerAt(answers, attempts - 1).Some? && history == Reverse(AnswerAt(answers, attempts - 1).value)
  {
    history := [];
    attempts := 0;
    while history == [] && attempts < MaxHistoryAttempts
      invariant 0 <= attempts <= MaxHistoryAttempts
      invariant history == [] ==> HistoryFrom(answers, attempts) == HistoryFrom(answers, 0)
      invariant history != [] ==>
        && attempts >= 1 && history == HistoryFrom(answers, 0)
        && AnswerAt(answers, attempts - 1).Some? && history == Reverse(AnswerAt(answers, attempts - 1).value)
      decreases MaxHistoryAttempts - attempts
    {
      HistoryStep(answers, attempts);
      var answer := AnswerAt(answers, attempts);
      if answer.Some? {
        history := Reverse(answer.value);
      }
      attempts := attempts + 1;
    }
  }

  /** One attempt of the retry loop: a non-empty page ends it with that page reversed, anything
      else leaves the outcome to the later attempts. */
  lemma HistoryStep(answers: seq<HistoryAnswer>, k: nat)
    requires k < MaxHistoryAttempts
    ensures AnswerAt(answers, k).Some? && AnswerAt(answers, k).value != [] ==>
      Reverse(AnswerAt(answers, k).value) != [] && HistoryFrom(answers, k) == Reverse(AnswerAt(answers, k).value)
    ensures AnswerAt(answers, k).None? || AnswerAt(answers, k).value == [] ==>
      (AnswerAt(answers, k).Some? ==> Reverse(AnswerAt(answers, k).value) == []) &&
      HistoryFrom(answers, k) == HistoryFrom(answers, k + 1)
  {
  }

  /** The history is empty exactly when none of the first 50 answers holds a row; otherwise it
      is the reversal of the first answer that does. */
  lemma {:induction false} HistoryFromEmpty(answers: seq<HistoryAnswer>, k: nat)
    ensures HistoryFrom(answers, k) == [] <==>
      forall j :: k <= j < MaxHistoryAttempts ==> AnswerAt(answers, j).None? || AnswerAt(answers, j).value == []
    decreases MaxHistoryAttempts - k
  {
    if k < MaxHistoryAttempts {
      HistoryFromEmpty(answers, k + 1);
      if AnswerAt(answers, k).Some? && AnswerAt(answers, k).value != [] {
        assert |Reverse(AnswerAt(answers, k).value)| > 0;
      }
    }
  }

  // ---------------------------------------------------------------------------------------
  // Per-product metrics
  // ---------------------------------------------------------------------------------------

  /** `closes`: the close of every candle. */
  function Closes(history: seq<Candle>): (r: seq<real>)
    ensures |r| == |history|
  {
    seq(|history|, i requires 0 <= i < |history| => history[i].close)
  }

  /** A history whose VWAP, over it and over its short window, is a non-zero number. */
  predicate VwapUsable(history: seq<Candle>, period: int)
  {
    && Vwap(history).Some? && Vwap(history).value != 0.0
    && Vwap(SliceFromEnd(history, period)).Some? && Vwap(SliceFromEnd(history, period)).value != 0.0
  }

  /** The record stored for one product, from the ticker price, the 24-hour open, the two
      VWAPs, the rounded standard deviation of the closes and the two regression slopes: every
      metric except the price and the change is taken relative to the price. */
  function Derive(price: real, open: real, vwap: real, shortVwap: real, sigma: real,
                  slope: real, shortSlope: real, min: real, inc: string): (r: Product)
    requires price != 0.0 && open != 0.0 && vwap != 0.0 && shortVwap != 0.0
    ensures r.price == price && r.min == min && r.inc == inc
    ensures r.change * open == price - open
    ensures r.volatility * price == sigma
    ensures r.vwap * vwap == price - vwap
    ensures r.shortVwap * shortVwap == price - shortVwap
    ensures r.slope * price == slope && r.shortSlope * price == shortSlope
    ensures r.compositeScore == r.vwap - r.slope * 5.0
    ensures r.rsi.None? && r.relativeVolume.None? && r.periodSlope.None?
  {
    DivMulBack(price - open, open);
    DivMulBack(sigma, price);
    DivMulBack(price - vwap, vwap);
    DivMulBack(price - shortVwap, shortVwap);
    DivMulBack(slope, price);
    DivMulBack(shortSlope, price);
    Product(
      price := price,
      volatility := sigma / price,
      change := (price - open) / open,
      compositeScore := (price - vwap) / vwap - slope / price * 5.0,
      vwap := (price - vwap) / vwap,
      shortVwap := (price - shortVwap) / shortVwap,
      slope := slope / price,
      shortSlope := shortSlope / price,
      min := min,
      inc := inc,
      rsi := None,
      relativeVolume := None,
      periodSlope := None)
  }

  /** The per-product metrics of the state builder over the product's history. `sqrt` stands
      for `Math.sqrt` and `slopeOf` for the regression library's slope of the points
      `[i + 1, close]`; both are taken as given. The short window is the last `period`
      candles. */
  function ProductMetrics(price: real, open: real, history: seq<Candle>, period: int,
                          sqrt: real -> real, slopeOf: seq<real> -> real,
                          min: real, inc: string): Product
    requires price != 0.0 && open != 0.0 && VwapUsable(history, period)
  {
    Derive(price, open, Vwap(history).value, Vwap(SliceFromEnd(history, period)).value,
           ToFixed(sqrt(Variance(Closes(history))), 2),
           slopeOf(Closes(history)), slopeOf(SliceFromEnd(Closes(history), period)), min, inc)
  }

  /** A product trading above its (positive) VWAP has a positive relative VWAP, and one below
      it a negative one. */
  lemma RelativeVwapSign(price: real, open: real, vwap: real, shortVwap: real, sigma: real,
                         slope: real, shortSlope: real, min: real, inc: string)
    requires price != 0.0 && open != 0.0 && vwap > 0.0 && shortVwap != 0.0
    ensures var r := Derive(price, open, vwap, shortVwap, sigma, slope, shortSlope, min, inc);
            (r.vwap > 0.0 <==> price > vwap) && (r.vwap < 0.0 <==> price < vwap)
  {
    var r := Derive(price, open, vwap, shortVwap, sigma, slope, shortSlope, min, inc);
    SignOfProduct(r.vwap, vwap, price - vwap);
  }

  lemma SignOfProduct(x: real, v: real, d: real)
    requires v > 0.0 && x * v == d
    ensures (x > 0.0 <==> d > 0.0) && (x < 0.0 <==> d < 0.0)
  {
    if x > 0.0 { assert x * v > 0.0; }
    if x < 0.0 { assert x * v < 0.0; }
    if x == 0.0 { assert x * v == 0.0; }
  }

  // ---------------------------------------------------------------------------------------
  // The builder
  // ---------------------------------------------------------------------------------------

  /** What the exchange answers for one tradable product: the 24-hour open (`None` when the
      stats request throws), the ticker price (`None` when the ticker request throws) and the
      successive answers of the history endpoint. */
  datatype Feed = Feed(open: Option<real>, price: Option<real>, answers: seq<HistoryAnswer>)

  /** Both the stats and the ticker request answered, so the ticker was recorded. */
  predicate Quoted(feed: Feed)
  {
    feed.open.Some? && feed.price.Some?
  }

  /** The history window in minutes. The wake interval is passed as it is configured: only a
      string goes through `convertTimeShortHandToMinutes`; for any other value (the default
      wake time is the number 10) the call throws, and the period is never used. */
  function PeriodOf(interval: Val): int
  {
    if interval.Str? then ShortHandToMinutes(interval.s) else 1
  }

  /** The exchange answers the model takes as numbers it can divide by: non-zero open and
      price, and a history whose VWAPs are non-zero. */
  predicate FeedUsable(feed: Feed, period: int)
  {
    feed.open != Some(0.0) && feed.price != Some(0.0)
    && (HistoryFrom(feed.answers, 0) != [] ==> VwapUsable(HistoryFrom(feed.answers, 0), period))
  }

  /** Target `i` throws out of the loop: its stats or ticker request throws, the wake interval
      is not a string (`textual` is false), or the history stays empty after every retry. */
  predicate Fails(feeds: seq<Feed>, textual: bool, i: nat)
    requires i < |feeds|
  {
    !Quoted(feeds[i]) || !textual || HistoryFrom(feeds[i].answers, 0) == []
  }

  /** A record the strategies cannot score: its price is non-zero and its RSI, relative volume
      and period slope are undefined. */
  predicate Unscored(p: Product)
  {
    p.price != 0.0 && p.rsi.None? && p.relativeVolume.None? && p.periodSlope.None?
  }

  predicate AllUnscored(d: Dict<Product>)
  {
    forall e :: e in d ==> Unscored(e.1)
  }

  /** The products the builder has stored after handling targets `0..n` in order, stopping at
      the first one that throws (the error ends the whole loop). */
  function BuiltProducts(targets: seq<ExchangeProduct>, feeds: seq<Feed>, period: int, textual: bool,
                         sqrt: real -> real, slopeOf: seq<real> -> real, n: nat): (r: Dict<Product>)
    requires n <= |targets| == |feeds|
    requires forall i :: 0 <= i < |feeds| ==> FeedUsable(feeds[i], period)
    ensures AllUnscored(r)
  {
    if n == 0 then []
    else if Aborted(feeds, textual, n) then BuiltProducts(targets, feeds, period, textual, sqrt, slopeOf, n - 1)
    else
      var f := feeds[n - 1];
      assert !Fails(feeds, textual, n - 1);
      var prev := BuiltProducts(targets, feeds, period, textual, sqrt, slopeOf, n - 1);
      var rec := ProductMetrics(f.price.value, f.open.value, HistoryFrom(f.answers, 0), period, sqrt, slopeOf,
                                targets[n - 1].min, targets[n - 1].inc);
      MetricsUnscored(f.price.value, f.open.value, HistoryFrom(f.answers, 0), period, sqrt, slopeOf, targets[n - 1].min, targets[n - 1].inc);
      PutUnscored(prev, targets[n - 1].id, rec);
      Put(prev, targets[n - 1].id, rec)
  }

  /** Whether some target among `0..n` threw. */
  predicate Aborted(feeds: seq<Feed>, textual: bool, n: nat)
    requires n <= |feeds|
  {
    exists i :: 0 <= i < n && Fails(feeds, textual, i)
  }

  lemma AbortedStep(feeds: seq<Feed>, textual: bool, n: nat)
    requires n < |feeds|
    ensures Aborted(feeds, textual, n + 1) <==> Aborted(feeds, textual, n) || Fails(feeds, textual, n)
  {
    if Aborted(feeds, textual, n + 1) && !Fails(feeds, textual, n) {
      var j :| 0 <= j < n + 1 && Fails(feeds, textual, j);
      assert j < n;
    }
  }

  lemma AbortedGrows(feeds: seq<Feed>, textual: bool, n: nat, m: nat)
    requires n <= m <= |feeds| && Aborted(feeds, textual, n)
    ensures Aborted(feeds, textual, m)
  {
    var j :| 0 <= j < n && Fails(feeds, textual, j);
    assert 0 <= j < m && Fails(feeds, textual, j);
  }

  /** How many targets the loop handled before it ended: all of them, or the ones up to and
      including the first that threw. */
  function Reached(feeds: seq<Feed>, textual: bool, n: nat): (r: nat)
    requires n <= |feeds|
    ensures r <= n
  {
    if n == 0 then 0
    else if Aborted(feeds, textual, n - 1) then Reached(feeds, textual, n - 1)
    else n
  }

  /** The prices table after the builder handled targets `0..n`: a target whose stats or
      ticker request threw records no price. */
  function PricesAfter(prices: Dict<real>, targets: seq<ExchangeProduct>, feeds: seq<Feed>, n: nat): Dict<real>
    requires n <= |targets| == |feeds|
  {
    if n == 0 then prices
    else
      var prev := PricesAfter(prices, targets, feeds, n - 1);
      if Quoted(feeds[n - 1]) then Put(prev, BaseCurrency(targets[n - 1].id), feeds[n - 1].price.value) else prev
  }

  /** The feeds fit the product list: one per tradable product, each usable by the metrics. */
  predicate FeedsFit(products: seq<ExchangeProduct>, feeds: seq<Feed>, interval: Val)
  {
    |feeds| == |TargetProducts(products)| && forall i :: 0 <= i < |feeds| ==> FeedUsable(feeds[i], PeriodOf(interval))
  }

  /** The state `StateFactory` answers. When the product list or the accounts cannot be
      fetched the initial state is kept: no cash, no products, no holdings. */
  function BuiltState(products: Option<seq<ExchangeProduct>>, accounts: Option<seq<Account>>, feeds: seq<Feed>,
                      interval: Val, sqrt: real -> real, slopeOf: seq<real> -> real): (r: MarketState)
    requires products.Some? ==> FeedsFit(products.value, feeds, interval)
    ensures AllUnscored(r.products) && r.marketSlopeCategory.None?
    ensures products.None? || accounts.None? ==> r == MarketState(0.0, [], [], None)
  {
    if products.None? || accounts.None? then MarketState(0.0, [], [], None)
    else
      MarketState(Cash(accounts.value),
                  BuiltProducts(TargetProducts(products.value), feeds, PeriodOf(interval), interval.Str?, sqrt, slopeOf,
                                Reached(feeds, interval.Str?, |feeds|)),
                  CryptoHoldings(accounts.value), None)
  }

  /** `StateFactory`: fetches the product list and the accounts, sets the portfolio balances,
      derives holdings and cash, then walks the tradable products: fetches the stats and the
      ticker, records the ticker in the portfolio, fetches the history and stores the metrics.
      Anything that throws ends the whole walk, keeping what was stored so far; when the
      product list or the accounts cannot be fetched, nothing is set. Finally the portfolio
      value is computed. `feeds[i]` answers for the i-th tradable product. */
  method BuildState(portfolio: PortfolioTracker, products: Option<seq<ExchangeProduct>>,
                    accounts: Option<seq<Account>>, feeds: seq<Feed>, interval: Val,
                    sqrt: real -> real, slopeOf: seq<real> -> real)
      returns (state: MarketState)
    requires portfolio.Valid()
    requires products.Some? ==> FeedsFit(products.value, feeds, interval)
    modifies portfolio
    ensures portfolio.Valid()
    ensures state == BuiltState(products, accounts, feeds, interval, sqrt, slopeOf)
    ensures products.Some? && accounts.Some? ==>
      state.cash == Cash(accounts.value)
      && state.crypto == CryptoHoldings(accounts.value)
      && state.products == BuiltProducts(TargetProducts(products.value), feeds, PeriodOf(interval), interval.Str?, sqrt, slopeOf,
                                         Reached(feeds, interval.Str?, |feeds|))
      && portfolio.balances == BalancesOf(accounts.value)
      && portfolio.prices == PricesAfter(old(portfolio.prices), TargetProducts(products.value), feeds, Reached(feeds, interval.Str?, |feeds|))
    ensures products.None? || accounts.None? ==>
      portfolio.balances == old(portfolio.balances) && portfolio.prices == old(portfolio.prices)
    ensures portfolio.frozen == old(portfolio.frozen)
    ensures old(portfolio.initialValue) == 0.0 ==>
      portfolio.initialValue == Value(portfolio.balances, portfolio.prices) && portfolio.gain == old(portfolio.gain)
    ensures old(portfolio.initialValue) != 0.0 ==>
      portfolio.initialValue == old(portfolio.initialValue)
      && portfolio.gain == Gain(Value(portfolio.balances, portfolio.prices), portfolio.initialValue)
  {
    if products.None? || accounts.None? {
      portfolio.Compute();
      return MarketState(0.0, [], [], None);
    }
    var listed, rows := products.value, accounts.value;
    portfolio.SetBalances(rows);
    var crypto := CryptoHoldings(rows);
    var cash := Cash(rows);
    var targets := TargetProducts(listed);
    ghost var period0, textual := PeriodOf(interval), interval.Str?;
    var built: Dict<Product> := [];
    ghost var prices0 := portfolio.prices;
    var i := 0;
    var aborted := false;
    while i < |targets| && !aborted
      invariant 0 <= i <= |targets|
      invariant portfolio.Valid()
      invariant aborted <==> Aborted(feeds, textual, i)
      invariant built == BuiltProducts(targets, feeds, period0, textual, sqrt, slopeOf, i)
      invariant portfolio.prices == PricesAfter(prices0, targets, feeds, i)
      invariant i == Reached(feeds, textual, i)
      invariant portfolio.balances == BalancesOf(rows)
      invariant portfolio.frozen == old(portfolio.frozen)
      invariant portfolio.gain == old(portfolio.gain) && portfolio.initialValue == old(portfolio.initialValue)
    {
      var target, feed := targets[i], feeds[i];
      AbortedStep(feeds, textual, i);
      if feed.open.None? || feed.price.None? {
        aborted := true;
      } else {
        portfolio.SetTickerPrice(target.id, feed.price.value);
        if !interval.Str? {
          aborted := true;
        } else {
          var period := ShortHandToMinutes(interval.s);
          var history, _ := FetchHistory(feed.answers);
          if history == [] {
            aborted := true;
          } else {
            built := Put(built, target.id,
                         ProductMetrics(feed.price.value, feed.open.value, history, period, sqrt, slopeOf, target.min, target.inc));
          }
        }
      }
      i := i + 1;
    }
    ReachedAfterAbort(feeds, textual, i, |feeds|);
    portfolio.Compute();
    state := MarketState(cash, built, crypto, None);
  }

  /** Once the walk has stopped at `n`, later targets do not add to the count of handled
      targets. */
  lemma {:induction false} ReachedAfterAbort(feeds: seq<Feed>, textual: bool, n: nat, m: nat)
    requires n <= m <= |feeds|
    requires n == m || (n > 0 && Aborted(feeds, textual, n))
    ensures Reached(feeds, textual, m) == Reached(feeds, textual, n)
    decreases m - n
  {
    if n < m {
      ReachedAfterAbort(feeds, textual, n, m - 1);
      AbortedGrows(feeds, textual, n, m - 1);
    }
  }

  /** A product without history hides every product after it, even ones whose history would
      have arrived: the first target's failure leaves no product at all. */
  lemma FirstFailureHidesAll(targets: seq<ExchangeProduct>, feeds: seq<Feed>, period: int, textual: bool,
                             sqrt: real -> real, slopeOf: seq<real> -> real)
    requires 0 < |targets| == |feeds|
    requires forall i :: 0 <= i < |feeds| ==> FeedUsable(feeds[i], period)
    requires Fails(feeds, textual, 0)
    ensures Reached(feeds, textual, |feeds|) == 1
    ensures BuiltProducts(targets, feeds, period, textual, sqrt, slopeOf, Reached(feeds, textual, |feeds|)) == []
  {
    assert Aborted(feeds, textual, 1);
    ReachedAfterAbort(feeds, textual, 1, |feeds|);
  }

  /** A first target whose stats or ticker request throws records no price, unlike a target
      whose history fails, and hides every later product. */
  lemma FailedQuoteRecordsNothing(prices: Dict<real>, targets: seq<ExchangeProduct>, feeds: seq<Feed>, textual: bool)
    requires 0 < |targets| == |feeds| && !Quoted(feeds[0])
    ensures PricesAfter(prices, targets, feeds, Reached(feeds, textual, |feeds|)) == prices
  {
    assert Fails(feeds, textual, 0);
    assert Aborted(feeds, textual, 1);
    ReachedAfterAbort(feeds, textual, 1, |feeds|);
  }

  /** A wake interval that is not a string, such as the numeric default, stores no product
      whatever the exchange answers, and handles only the first target. */
  lemma NumericIntervalBuildsNothing(targets: seq<ExchangeProduct>, feeds: seq<Feed>, period: int,
                                     sqrt: real -> real, slopeOf: seq<real> -> real)
    requires |targets| == |feeds|
    requires forall i :: 0 <= i < |feeds| ==> FeedUsable(feeds[i], period)
    ensures Reached(feeds, false, |feeds|) == if feeds == [] then 0 else 1
    ensures BuiltProducts(targets, feeds, period, false, sqrt, slopeOf, Reached(feeds, false, |feeds|)) == []
  {
    if feeds != [] {
      FirstFailureHidesAll(targets, feeds, period, false, sqrt, slopeOf);
    }
  }

  lemma MetricsUnscored(price: real, open: real, history: seq<Candle>, period: int,
                        sqrt: real -> real, slopeOf: seq<real> -> real, min: real, inc: string)
    requires price != 0.0 && open != 0.0 && VwapUsable(history, period)
    ensures Unscored(ProductMetrics(price, open, history, period, sqrt, slopeOf, min, inc))
  {
  }

  lemma PutUnscored(d: Dict<Product>, id: string, rec: Product)
    requires AllUnscored(d) && Unscored(rec)
    ensures AllUnscored(Put(d, id, rec))
  {
    PutMembers(d, id, rec);
  }
}
