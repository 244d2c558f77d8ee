/** The bot's process: its configuration, the strategy filter, the buy, sell and walk-away
    steps, the gates of one wake cycle, the clock guard and the configuration update. The
    exchange's answers for a cycle are passed in; the market-cap ranking is a list of symbols. */
module Server {
  import opened Js
  import opened Snapshot
  import opened Utils
  import opened Portfolio
  import opened StateBuilder
  import opened Orders

  /** The configuration variables, each holding whatever JavaScript value it was last given. */
  datatype Config = Config(
    wakeTime: Val, fraction: Val, margin: Val, stopMargin: Val, walkAway: Val, strategy: Val,
    maxVwap: Val, minSlope: Val, isTesting: Val, maxOrders: Val, maxVolatility: Val,
    minLoss: Val, maxRSI: Val, minRelVol: Val, maxRounds: Val, minMarketSlopeCategory: Val,
    maxRank: Val)

  // ---------------------------------------------------------------------------------------
  // Start-up configuration
  // ---------------------------------------------------------------------------------------

  /** `process.argv[i]`: a string, or `undefined` past the end. */
  function Arg(argv: seq<string>, i: nat): Val
  {
    if i < |argv| then Str(argv[i]) else Undefined
  }

  /** The configuration read from the command line: numeric fields go through unary `+` and
      fall back to their default when that gives 0 or NaN, the other fields fall back when the
      argument is missing or empty. The testing flag is `argv[10] === "test" || true`. */
  function StartupConfig(argv: seq<string>): Config
  {
    Config(
      wakeTime := Or(Arg(argv, 2), Num(10.0)),
      fraction := Or(ToNumber(Arg(argv, 3)), Num(0.75)),
      margin := Or(ToNumber(Arg(argv, 4)), Num(0.01)),
      stopMargin := Or(ToNumber(Arg(argv, 5)), Num(0.005)),
      walkAway := Or(ToNumber(Arg(argv, 6)), Num(0.03)),
      strategy := Or(Arg(argv, 7), Str("change")),
      maxVwap := Or(ToNumber(Arg(argv, 8)), Num(-0.001)),
      minSlope := Or(ToNumber(Arg(argv, 9)), Num(0.001)),
      isTesting := Bool(Arg(argv, 10) == Str("test") || true),
      maxOrders := Or(Arg(argv, 11), Num(1.0)),
      maxVolatility := Or(Arg(argv, 12), Num(0.01)),
      minLoss := Or(Arg(argv, 13), Num(-0.5)),
      maxRSI := Or(Arg(argv, 14), Num(30.0)),
      minRelVol := Or(Arg(argv, 15), Num(5.0)),
      maxRounds := Or(Arg(argv, 16), Num(100.0)),
      minMarketSlopeCategory := Or(Arg(argv, 17), Num(3.0)),
      maxRank := Or(Arg(argv, 18), Num(10.0)))
  }

  /** Whatever the command line says, the bot starts in testing mode. */
  lemma StartupAlwaysTesting(argv: seq<string>)
    ensures StartupConfig(argv).isTesting == Bool(true)
  {
  }

  /** The fields read with unary `+` always hold a non-zero number: 0 and NaN fall back to
      the default. */
  lemma StartupNumbersNonZero(argv: seq<string>)
    ensures var c := StartupConfig(argv);
            c.fraction.Num? && c.fraction.n != 0.0 && c.margin.Num? && c.margin.n != 0.0
            && c.stopMargin.Num? && c.stopMargin.n != 0.0 && c.walkAway.Num? && c.walkAway.n != 0.0
    ensures var c := StartupConfig(argv);
            c.maxVwap.Num? && c.maxVwap.n != 0.0 && c.minSlope.Num? && c.minSlope.n != 0.0
  {
  }

  /** Without a wake-time argument the wake time is the number 10, not a shorthand string, so
      every cycle's state builder stores no product. */
  lemma DefaultWakeTimeIsNumeric(argv: seq<string>)
    requires |argv| <= 2 || argv[2] == ""
    ensures StartupConfig(argv).wakeTime == Num(10.0)
    ensures !PeriodOfIsShorthand(StartupConfig(argv).wakeTime)
  {
  }

  predicate PeriodOfIsShorthand(interval: Val)
  {
    interval.Str?
  }

  // ---------------------------------------------------------------------------------------
  // Strategy filter
  // ---------------------------------------------------------------------------------------

  predicate IsSymbolChar(c: char)
  {
    'A' <= c <= 'Z' || '0' <= c <= '9'
  }

  /** The symbol `id.match(/([A-Z0-9]+)-USD/)` captures, if the id matches. */
  function SymbolOf(id: string): Option<string>
  {
    FirstRunBefore(id, IsSymbolChar, rest => StartsWith(rest, "-USD"))
  }

  /** The symbol of a USD product id is the currency it was built from. */
  lemma SymbolOfUsdProduct(currency: string)
    requires |currency| > 0 && forall i :: 0 <= i < |currency| ==> IsSymbolChar(currency[i])
    ensures SymbolOf(UsdProduct(currency)) == Some(currency)
  {
    assert StartsWith("-USD", "-USD");
    FirstRunOf(currency, "-USD", IsSymbolChar, rest => StartsWith(rest, "-USD"));
  }

  /** The market-cap filter: the id's symbol is one of the top coins' symbols. */
  predicate AmongTopCoins(id: string, top: seq<string>)
  {
    var sym := SymbolOf(id);
    sym.Some? && sym.value in top
  }

  predicate IsNamedStrategy(strategy: Val)
  {
    strategy in [Str("compositeScore"), Str("vwap"), Str("slope"), Str("change"), Str("volatility"), Str("relativeVolume")]
  }

  /** The strategy filter. Every named strategy asks for `rsi <= maxRSI` on top of its own
      test; any other strategy value keeps the product. Reads of fields the record lacks are
      `undefined`, and every comparison with them is false. */
  predicate PassesStrategy(p: Product, cfg: Config)
  {
    var passRsi := OptLe(p.rsi, cfg.maxRSI);
    if cfg.strategy == Str("compositeScore") then passRsi && NumLe(p.vwap, cfg.maxVwap) && NumGe(p.slope, cfg.minSlope)
    else if cfg.strategy == Str("vwap") then passRsi && NumLe(p.vwap, cfg.maxVwap)
    else if cfg.strategy == Str("slope") then passRsi && NumGe(p.slope, cfg.minSlope)
    else if cfg.strategy == Str("change") then passRsi && NumGe(p.change, cfg.minLoss)
    else if cfg.strategy == Str("volatility") then passRsi && NumLe(Abs(p.volatility), cfg.maxVolatility)
    else if cfg.strategy == Str("relativeVolume") then
      passRsi && p.relativeVolume.Some? && NumGt(Abs(p.relativeVolume.value), cfg.minRelVol)
      && p.periodSlope.Some? && p.periodSlope.value > 0.0
    else true
  }

  /** A named strategy always demands a defined RSI within bounds; an unknown one keeps every
      product. */
  lemma StrategyRsiGate(p: Product, cfg: Config)
    ensures IsNamedStrategy(cfg.strategy) && PassesStrategy(p, cfg) ==> OptLe(p.rsi, cfg.maxRSI)
    ensures !IsNamedStrategy(cfg.strategy) ==> PassesStrategy(p, cfg)
  {
  }

  /** So a record whose RSI is undefined, as every record the state builder stores, passes no
      named strategy. */
  lemma UnscoredFailsNamedStrategies(p: Product, cfg: Config)
    requires Unscored(p) && IsNamedStrategy(cfg.strategy)
    ensures !PassesStrategy(p, cfg)
  {
  }

  predicate Keeps(e: (string, Product), top: seq<string>, cfg: Config)
  {
    AmongTopCoins(e.0, top) && PassesStrategy(e.1, cfg)
  }

  /** `getEligibleByStrategy` on the products as `(id, record)` pairs: the top-coin filter,
      then the strategy filter. */
  function Eligible(products: Dict<Product>, top: seq<string>, cfg: Config): (r: Dict<Product>)
    ensures |r| <= |products|
  {
    if products == [] then []
    else (if Keeps(products[0], top, cfg) then [products[0]] else []) + Eligible(products[1..], top, cfg)
  }

  /** A product is eligible iff it is listed, is among the top coins and passes the strategy. */
  lemma {:induction false} EligibleMembers(products: Dict<Product>, top: seq<string>, cfg: Config)
    ensures forall e :: e in Eligible(products, top, cfg) <==> e in products && Keeps(e, top, cfg)
  {
    if products != [] {
      EligibleMembers(products[1..], top, cfg);
      assert products == [products[0]] + products[1..];
    }
  }

  /** The filter keeps the input order: it distributes over concatenation. */
  lemma {:induction false} EligibleAppend(a: Dict<Product>, b: Dict<Product>, top: seq<string>, cfg: Config)
    ensures Eligible(a + b, top, cfg) == Eligible(a, top, cfg) + Eligible(b, top, cfg)
  {
    if a != [] {
      assert (a + b)[1..] == a[1..] + b;
      EligibleAppend(a[1..], b, top, cfg);
    } else {
      assert a + b == b;
    }
  }

  /** The first eligible product is the first listed product that the filters keep. */
  lemma {:induction false} FirstEligible(products: Dict<Product>, top: seq<string>, cfg: Config)
    requires Eligible(products, top, cfg) != []
    ensures exists i :: 0 <= i < |products| && products[i] == Eligible(products, top, cfg)[0]
                        && Keeps(products[i], top, cfg) && forall j :: 0 <= j < i ==> !Keeps(products[j], top, cfg)
  {
    if !Keeps(products[0], top, cfg) {
      FirstEligible(products[1..], top, cfg);
      var i :| 0 <= i < |products[1..]| && products[1..][i] == Eligible(products[1..], top, cfg)[0]
               && Keeps(products[1..][i], top, cfg) && forall j :: 0 <= j < i ==> !Keeps(products[1..][j], top, cfg);
      assert products[i + 1] == products[1..][i];
      forall j | 0 <= j < i + 1 ensures !Keeps(products[j], top, cfg) {
        if j > 0 {
          assert products[j] == products[1..][j - 1];
        }
      }
    }
  }

  // ---------------------------------------------------------------------------------------
  // Buy, sell and walk away
  // ---------------------------------------------------------------------------------------

  /** The sort key lodash reads: the strategy's name when it is a string. */
  function MetricName(strategy: Val): string
  {
    if strategy.Str? then strategy.s else ""
  }

  /** `x < v` where `x` may be `undefined`. */
  predicate OptLt(x: Option<real>, v: Val)
  {
    x.Some? && NumLt(x.value, v)
  }

  /** The product `executeBuy` buys: the first eligible one after sorting by the strategy's
      metric; none when nothing is eligible or the market slope category is below its minimum. */
  function BuyChoice(state: MarketState, cfg: Config, top: seq<string>): (r: Option<(string, Product)>)
    ensures r.Some? ==> r.value in state.products && Keeps(r.value, top, cfg)
  {
    var sorted := SortByMetric(state, MetricName(cfg.strategy));
    var eligible := Eligible(sorted.products, top, cfg);
    if eligible == [] || OptLt(sorted.marketSlopeCategory, cfg.minMarketSlopeCategory) then None
    else
      EligibleMembers(sorted.products, top, cfg);
      assert eligible[0] in eligible;
      assert eligible[0] in multiset(sorted.products);
      Some(eligible[0])
  }

  /** The bot buys a listed, eligible product whose metric is the lowest among eligible ones
      (undefined metrics last); it buys nothing only when nothing is eligible or the market is
      judged too bearish. */
  lemma BuyChoiceIsLowestEligible(state: MarketState, cfg: Config, top: seq<string>)
    ensures var c := BuyChoice(state, cfg, top);
            c.Some? ==> c.value in state.products && Keeps(c.value, top, cfg)
                        && forall e :: e in state.products && Keeps(e, top, cfg) ==>
                             KeyLe(Key(c.value, MetricName(cfg.strategy)), Key(e, MetricName(cfg.strategy)))
    ensures BuyChoice(state, cfg, top).None? <==>
      (forall e :: e in state.products ==> !Keeps(e, top, cfg)) || OptLt(state.marketSlopeCategory, cfg.minMarketSlopeCategory)
  {
    var metric := MetricName(cfg.strategy);
    var s := SortByMetric(state, metric).products;
    SortedSameMembers(state, metric);
    EligibleMembers(s, top, cfg);
    if Eligible(s, top, cfg) != [] {
      FirstEligibleIsLowest(s, metric, top, cfg);
    } else {
      forall e | e in state.products ensures !Keeps(e, top, cfg) {
        assert e in s;
      }
    }
  }

  /** Sorting neither adds nor drops a product. */
  lemma SortedSameMembers(state: MarketState, metric: string)
    ensures forall e :: e in SortByMetric(state, metric).products <==> e in state.products
  {
    var s := SortByMetric(state, metric).products;
    forall e ensures e in s <==> e in state.products {
      assert e in s <==> e in multiset(s);
      assert e in state.products <==> e in multiset(state.products);
    }
  }

  /** In a list sorted by the metric, the first product the filters keep has the lowest metric
      of all kept products. */
  lemma FirstEligibleIsLowest(s: Dict<Product>, metric: string, top: seq<string>, cfg: Config)
    requires SortedBy(s, metric) && Eligible(s, top, cfg) != []
    ensures forall e :: e in s && Keeps(e, top, cfg) ==> KeyLe(Key(Eligible(s, top, cfg)[0], metric), Key(e, metric))
  {
    var first := Eligible(s, top, cfg)[0];
    FirstEligible(s, top, cfg);
    var i :| 0 <= i < |s| && s[i] == first && Keeps(s[i], top, cfg)
             && forall j :: 0 <= j < i ==> !Keeps(s[j], top, cfg);
    forall e | e in s && Keeps(e, top, cfg) ensures KeyLe(Key(first, metric), Key(e, metric)) {
      var j :| 0 <= j < |s| && s[j] == e;
    }
  }

  /** A state whose market slope category is undefined, as every built state's is, is never
      judged too bearish. */
  lemma UndefinedSlopeCategoryNeverBearish(state: MarketState, cfg: Config, top: seq<string>)
    requires state.marketSlopeCategory.None?
    ensures BuyChoice(state, cfg, top).None? <==> forall e :: e in state.products ==> !Keeps(e, top, cfg)
  {
    BuyChoiceIsLowestEligible(state, cfg, top);
  }

  /** With a named strategy, a state of records the builder made offers nothing to buy. */
  lemma NamedStrategyBuysNothingFromBuiltState(state: MarketState, cfg: Config, top: seq<string>)
    requires AllUnscored(state.products) && IsNamedStrategy(cfg.strategy)
    ensures BuyChoice(state, cfg, top).None?
  {
    forall e | e in state.products ensures !Keeps(e, top, cfg) {
      UnscoredFailsNamedStrategies(e.1, cfg);
    }
    BuyChoiceIsLowestEligible(state, cfg, top);
  }

  // ---------------------------------------------------------------------------------------
  // The buy choice as written
  // ---------------------------------------------------------------------------------------

  /** A product as `getEligibleByStrategy` receives it: the record's `id` field, `None` when
      the record has none, and the record itself. */
  datatype Candidate = Candidate(id: Option<string>, record: Product)

  /** The array `_sortBy` makes of the sorted products. As written the state's products are an
      object keyed by id, and `_sortBy` answers its values: records without an `id` field
      (`idsKept == false`). The intended array keeps each id on its record (`idsKept == true`). */
  function Candidates(products: Dict<Product>, idsKept: bool): (r: seq<Candidate>)
    ensures |r| == |products|
    ensures forall i :: 0 <= i < |r| ==>
              r[i].record == products[i].1 && r[i].id == (if idsKept then Some(products[i].0) else None)
  {
    if products == [] then []
    else [Candidate(if idsKept then Some(products[0].0) else None, products[0].1)] + Candidates(products[1..], idsKept)
  }

  /** The top-coin filter of `getEligibleByStrategy`: `None` when its callback throws, which
      it does at the first entry without an id (`id.match` on `undefined`); otherwise the
      entries whose symbol is among the top coins, in order. */
  function TopCoinFilter(entries: seq<Candidate>, top: seq<string>): (r: Option<seq<Candidate>>)
    ensures r.Some? <==> forall i :: 0 <= i < |entries| ==> entries[i].id.Some?
    ensures r.Some? ==> forall e :: e in r.value ==> e in entries && e.id.Some? && AmongTopCoins(e.id.value, top)
  {
    if entries == [] then Some([])
    else if entries[0].id.None? then None
    else
      match TopCoinFilter(entries[1..], top)
      case None => None
      case Some(rest) => Some((if AmongTopCoins(entries[0].id.value, top) then [entries[0]] else []) + rest)
  }

  /** The strategy filter of `getEligibleByStrategy`, which reads only the record. */
  function StrategyFilter(entries: seq<Candidate>, cfg: Config): (r: seq<Candidate>)
    ensures forall e :: e in r ==> e in entries && PassesStrategy(e.record, cfg)
  {
    if entries == [] then []
    else (if PassesStrategy(entries[0].record, cfg) then [entries[0]] else []) + StrategyFilter(entries[1..], cfg)
  }

  /** `executeBuy` up to the order, with the catch in `main`: no product when the filter
      throws, when nothing is eligible or when the market is too bearish; otherwise the id
      and record of the first eligible entry. */
  function ChoiceFrom(state: MarketState, cfg: Config, top: seq<string>, idsKept: bool): (r: Option<(string, Product)>)
  {
    var sorted := SortByMetric(state, MetricName(cfg.strategy));
    match TopCoinFilter(Candidates(sorted.products, idsKept), top)
    case None => None
    case Some(listed) =>
      var eligible := StrategyFilter(listed, cfg);
      if eligible == [] || OptLt(sorted.marketSlopeCategory, cfg.minMarketSlopeCategory) then None
      else
        assert eligible[0] in eligible;
        Some((eligible[0].id.value, eligible[0].record))
  }

  /** As written, `executeBuy` never reaches `buy`: a state without products has nothing
      eligible, and on a state with any product the top-coin filter throws. */
  lemma AsWrittenNeverChooses(state: MarketState, cfg: Config, top: seq<string>)
    ensures state.products != [] ==>
      TopCoinFilter(Candidates(SortByMetric(state, MetricName(cfg.strategy)).products, false), top).None?
    ensures ChoiceFrom(state, cfg, top, false).None?
  {
    var s := SortByMetric(state, MetricName(cfg.strategy)).products;
    assert |s| == |multiset(s)| == |multiset(state.products)| == |state.products|;
    if s != [] {
      assert Candidates(s, false)[0].id.None?;
    }
  }

  /** With the ids kept, the two filters pick the entries of the products `Eligible` keeps. */
  lemma {:induction false} KeptIdsFilterAsEligible(products: Dict<Product>, top: seq<string>, cfg: Config)
    ensures TopCoinFilter(Candidates(products, true), top).Some?
    ensures StrategyFilter(TopCoinFilter(Candidates(products, true), top).value, cfg) == Candidates(Eligible(products, top, cfg), true)
  {
    if products != [] {
      var es := Candidates(products, true);
      assert es[1..] == Candidates(products[1..], true);
      KeptIdsFilterAsEligible(products[1..], top, cfg);
      var rest := TopCoinFilter(es[1..], top).value;
      var head := if AmongTopCoins(products[0].0, top) then [es[0]] else [];
      assert TopCoinFilter(es, top).value == head + rest;
      if head == [] {
        assert head + rest == rest;
      } else {
        assert (head + rest)[1..] == rest;
      }
      var kept := if Keeps(products[0], top, cfg) then [products[0]] else [];
      assert Eligible(products, top, cfg) == kept + Eligible(products[1..], top, cfg);
      if kept != [] {
        assert (kept + Eligible(products[1..], top, cfg))[1..] == Eligible(products[1..], top, cfg);
      } else {
        assert kept + Eligible(products[1..], top, cfg) == Eligible(products[1..], top, cfg);
      }
    }
  }

  /** With the ids kept, the choice is `BuyChoice`'s. */
  lemma KeptIdsChooseAsIntended(state: MarketState, cfg: Config, top: seq<string>)
    ensures ChoiceFrom(state, cfg, top, true) == BuyChoice(state, cfg, top)
  {
    var sorted := SortByMetric(state, MetricName(cfg.strategy));
    KeptIdsFilterAsEligible(sorted.products, top, cfg);
  }

  /** As written, the trade at the end of a cycle sends nothing and ends with `NoBuy`, whatever
      the state and the exchange answer. */
  lemma TradeAsWrittenNeverBuys(cfg: Config, state: MarketState, ex: Exchange, top: seq<string>)
    requires Tradable(cfg)
    ensures TradeFor(ChoiceFrom(state, cfg, top, false), state.cash, cfg, ex) == (NoBuy, [])
  {
    AsWrittenNeverChooses(state, cfg, top);
  }

  /** So the ids the keyed object loses cost every buy: whenever a listed product is eligible
      and the market is not judged bearish, the intended choice buys and the code as written
      does not. */
  lemma AsWrittenMissesEligibleProducts(state: MarketState, cfg: Config, top: seq<string>, e: (string, Product))
    requires e in state.products && Keeps(e, top, cfg) && state.marketSlopeCategory.None?
    ensures BuyChoice(state, cfg, top).Some? && ChoiceFrom(state, cfg, top, false).None?
  {
    BuyChoiceIsLowestEligible(state, cfg, top);
    AsWrittenNeverChooses(state, cfg, top);
  }

  /** How often `executeSell` polls the buy order before giving up. */
  const MaxPolls: nat := 100

  /** The index of the first poll that saw a positive filled size. */
  function FirstFill(polls: seq<real>): (r: Option<nat>)
    ensures r.Some? ==> r.value < |polls| && polls[r.value] > 0.0
                        && forall i :: 0 <= i < r.value ==> polls[i] <= 0.0
    ensures r.None? ==> forall i :: 0 <= i < |polls| ==> polls[i] <= 0.0
  {
    if polls == [] then None
    else
      var r := FirstFill(polls[..|polls| - 1]);
      if r.Some? then r
      else if polls[|polls| - 1] > 0.0 then Some(|polls| - 1)
      else None
  }

  /** What `executeSell` ends with: it throws when no poll saw a fill, otherwise it answers the
      reply to the limit sell. */
  datatype SellResult = NeverFilled | Listed(order: Option<PlacedOrder>)

  /** `executeWalkAway`: freezes the portfolio, then replaces every open sell order by force. */
  method ExecuteWalkAway(portfolio: PortfolioTracker, factory: OrderFactory, margin: real, stopMargin: real,
                         listed: Option<seq<OpenOrder>>, quotes: seq<Quote>)
    requires portfolio.Valid()
    requires 1.0 + margin != 0.0 && 1.0 + stopMargin != 0.0
    requires listed.Some? ==> |quotes| == |listed.value|
    modifies portfolio, factory
    ensures portfolio.Valid() && portfolio.frozen
    ensures portfolio.gain == old(portfolio.gain) && portfolio.initialValue == old(portfolio.initialValue)
    ensures portfolio.balances == old(portfolio.balances) && portfolio.prices == old(portfolio.prices)
    ensures factory.targetPrice == old(factory.targetPrice)
    ensures factory.log == old(factory.log) +
      (if listed.None? then [] else RemarginPass(listed.value, quotes, |listed.value|, margin, stopMargin, true, factory.targetPrice).requests)
  {
    portfolio.Freeze();
    var _ := factory.Remargin(margin, stopMargin, true, listed, quotes);
  }

  /** The requests `executeBuy` sends: the market buy of the chosen product with `fraction` of
      the state's cash, when the size is large enough. */
  function Purchase(choice: Option<(string, Product)>, cash: real, fraction: real): (r: seq<Action>)
    requires choice.Some? ==> choice.value.1.price != 0.0
    ensures r != [] ==> choice.Some?
  {
    match choice
    case None => []
    case Some(c) => BuyRequests(c.0, c.1, cash, fraction)
  }

  /** `executeBuy`: buys the chosen product with `fraction` of the state's cash, or answers
      null without asking anything. */
  method ExecuteBuy(state: MarketState, factory: OrderFactory, fraction: real, cfg: Config, top: seq<string>,
                    reply: Option<PlacedOrder>)
      returns (order: Option<PlacedOrder>)
    requires PricesKnown(state.products)
    modifies factory
    ensures factory.log == old(factory.log) + Purchase(BuyChoice(state, cfg, top), state.cash, fraction)
    ensures order == (if Purchase(BuyChoice(state, cfg, top), state.cash, fraction) == [] then None else reply)
    ensures factory.targetPrice ==
      (if BuyChoice(state, cfg, top).None? then old(factory.targetPrice) else Some(BuyChoice(state, cfg, top).value.1.price))
  {
    var sortedState := SortByMetric(state, MetricName(cfg.strategy));
    var eligibleProducts := Eligible(sortedState.products, top, cfg);
    if eligibleProducts == [] {
      return None;
    }
    if OptLt(sortedState.marketSlopeCategory, cfg.minMarketSlopeCategory) {
      return None;
    }
    var productToBuy := eligibleProducts[0];
    assert productToBuy in state.products by {
      BuyChoiceIsLowestEligible(state, cfg, top);
    }
    order := factory.Buy(productToBuy.0, productToBuy.1, sortedState.cash, fraction, reply);
  }

  /** `executeSell`: polls the buy order at most `MaxPolls` times, stopping at the first poll
      with a positive filled size, and places the limit sell only after such a poll. */
  method ExecuteSell(buyOrder: PlacedOrder, factory: OrderFactory, margin: real, fills: seq<real>,
                     reply: Option<PlacedOrder>)
      returns (result: SellResult, polls: nat)
    requires |fills| == MaxPolls
    modifies factory
    ensures polls <= MaxPolls
    ensures FirstFill(fills).Some? ==> polls == FirstFill(fills).value + 1
    ensures FirstFill(fills).None? ==> polls == MaxPolls
    ensures result.NeverFilled? <==> FirstFill(fills).None?
    ensures result.NeverFilled? ==> factory.log == old(factory.log)
    ensures result.Listed? ==> (result.order == reply
      && factory.log == old(factory.log) + [LimitSell(buyOrder.productId, SellPrice(buyOrder.price, factory.targetPrice, margin), buyOrder.size)])
    ensures factory.targetPrice == old(factory.targetPrice)
  {
    var filled := false;
    var tryCount := 1;
    while !filled && tryCount <= MaxPolls
      invariant 1 <= tryCount <= MaxPolls + 1
      invariant filled ==> tryCount >= 2 && fills[tryCount - 2] > 0.0
      invariant forall i :: 0 <= i < tryCount - 1 && !(filled && i == tryCount - 2) ==> fills[i] <= 0.0
      decreases MaxPolls + 1 - tryCount, if filled then 0 else 1
    {
      var filledSize := fills[tryCount - 1];
      if filledSize > 0.0 {
        filled := true;
      }
      tryCount := tryCount + 1;
    }
    polls := tryCount - 1;
    if !filled {
      return NeverFilled, polls;
    }
    var order := factory.Sell(buyOrder.price, buyOrder.size, buyOrder.productId, margin, reply);
    result := Listed(order);
  }

  // ---------------------------------------------------------------------------------------
  // One wake cycle
  // ---------------------------------------------------------------------------------------

  /** How a cycle of `main` ends. `NeverFilled` under `BoughtAndListed` is the attempt after
      which the caller's retry loop would poll again. */
  datatype CycleOutcome =
    | WalkedAway
    | TestingOnly
    | OrphanCleanupThrew
    | MaxOrdersReached
    | NoBuy
    | BoughtAndListed(sell: SellResult)

  /** The exchange's answers during one cycle: the product list and the accounts (`None` when
      the request throws) and one price feed per target product for the state builder; the open orders (`None` when listing
      fails) with a quote per order for re-pricing; a quote per holding for the orphan sale;
      the number of open orders the order tracker reports; the reply to the market buy; the
      filled size seen by each poll; the reply to the limit sell. */
  datatype Exchange = Exchange(
    products: Option<seq<ExchangeProduct>>, accounts: Option<seq<Account>>, feeds: seq<Feed>,
    openOrders: Option<seq<OpenOrder>>, quotes: seq<Quote>, orphanQuotes: seq<OrphanQuote>,
    orderCount: nat, buyReply: Option<PlacedOrder>, fills: seq<real>, sellReply: Option<PlacedOrder>)

  /** The configuration values the order arithmetic uses are numbers, and the margins leave a
      non-zero divisor. */
  predicate Tradable(cfg: Config)
  {
    cfg.margin.Num? && cfg.stopMargin.Num? && cfg.fraction.Num?
    && 1.0 + cfg.margin.n != 0.0 && 1.0 + cfg.stopMargin.n != 0.0
  }

  /** The answers fit together: a feed per target product that the metrics can divide by, a
      quote per open order and per holding, and a poll answer for every allowed poll. */
  predicate Fits(ex: Exchange, interval: Val)
  {
    && (ex.products.Some? ==> FeedsFit(ex.products.value, ex.feeds, interval))
    && (ex.openOrders.Some? ==> |ex.quotes| == |ex.openOrders.value|)
    && |ex.orphanQuotes| == (if ex.products.Some? && ex.accounts.Some? then |CryptoHoldings(ex.accounts.value)| else 0)
    && |ex.fills| == MaxPolls
  }

  /** The state the builder answers for the cycle. */
  function Built(ex: Exchange, interval: Val, sqrt: real -> real, slopeOf: seq<real> -> real): (r: MarketState)
    requires Fits(ex, interval)
    ensures AllUnscored(r.products) && r.marketSlopeCategory.None?
  {
    BuiltState(ex.products, ex.accounts, ex.feeds, interval, sqrt, slopeOf)
  }

  predicate PricesKnown(products: Dict<Product>)
  {
    forall e :: e in products ==> e.1.price != 0.0
  }

  /** The requests of the re-pricing pass of a fresh order factory, `[]` when listing fails. */
  function RemarginRequests(ex: Exchange, cfg: Config, force: bool): seq<Action>
    requires Tradable(cfg) && (ex.openOrders.Some? ==> |ex.quotes| == |ex.openOrders.value|)
  {
    if ex.openOrders.None? then []
    else RemarginPass(ex.openOrders.value, ex.quotes, |ex.openOrders.value|, cfg.margin.n, cfg.stopMargin.n, force, None).requests
  }

  /** The buy and the sell at the end of a cycle: buy the chosen product; after a fill within
      the allowed polls, place the limit sell of what was bought at the margin over the price
      `buy` remembered. */
  function Trade(cfg: Config, state: MarketState, ex: Exchange, top: seq<string>): (CycleOutcome, seq<Action>)
    requires Tradable(cfg) && PricesKnown(state.products)
  {
    TradeFor(BuyChoice(state, cfg, top), state.cash, cfg, ex)
  }

  function TradeFor(choice: Option<(string, Product)>, cash: real, cfg: Config, ex: Exchange): (CycleOutcome, seq<Action>)
    requires Tradable(cfg) && (choice.Some? ==> choice.value.1.price != 0.0)
  {
    var buys := Purchase(choice, cash, cfg.fraction.n);
    if buys == [] || ex.buyReply.None? then (NoBuy, buys)
    else
      var listing := Listing(ex.buyReply.value, choice.value.1.price, cfg, ex);
      (listing.0, buys + listing.1)
  }

  /** After a market buy came back: the limit sell once a poll saw a fill, nothing otherwise. */
  function Listing(bought: PlacedOrder, buyPrice: real, cfg: Config, ex: Exchange): (CycleOutcome, seq<Action>)
    requires Tradable(cfg)
  {
    if FirstFill(ex.fills).None? then (BoughtAndListed(NeverFilled), [])
    else (BoughtAndListed(Listed(ex.sellReply)),
          [LimitSell(bought.productId, SellPrice(bought.price, Some(buyPrice), cfg.margin.n), bought.size)])
  }

  /** The order-count gate: the tracker reports at least `maxOrders` orders and the limit is
      positive. */
  predicate AtOrderLimit(orderCount: nat, cfg: Config)
  {
    NumGe(orderCount as real, cfg.maxOrders) && NumLt(0.0, cfg.maxOrders)
  }

  /** The gates of `main` after the state is built, in order: walk away when the gain reaches
      its threshold; stop when testing; sell orphaned holdings, ending the cycle if that throws;
      re-price open orders; stop at the order limit; then trade. The result pairs the outcome
      with the requests the cycle sends. */
  function Cycle(cfg: Config, gain: real, state: MarketState, ex: Exchange, top: seq<string>): (CycleOutcome, seq<Action>)
    requires Tradable(cfg) && PricesKnown(state.products)
    requires ex.openOrders.Some? ==> |ex.quotes| == |ex.openOrders.value|
    requires |ex.orphanQuotes| == |state.crypto|
  {
    if NumGe(gain, cfg.walkAway) then (WalkedAway, RemarginRequests(ex, cfg, true))
    else if Truthy(cfg.isTesting) then (TestingOnly, [])
    else Reconcile(cfg, state, ex, top)
  }

  /** The part of a live cycle after the testing gate. */
  function Reconcile(cfg: Config, state: MarketState, ex: Exchange, top: seq<string>): (CycleOutcome, seq<Action>)
    requires Tradable(cfg) && PricesKnown(state.products)
    requires ex.openOrders.Some? ==> |ex.quotes| == |ex.openOrders.value|
    requires |ex.orphanQuotes| == |state.crypto|
  {
    var cleanup := CleanupPass(state.crypto, state.products, ex.orphanQuotes, |state.crypto|, None);
    if cleanup.aborted then (OrphanCleanupThrew, cleanup.requests)
    else
      var rest := AfterCleanup(cfg, state, ex, top);
      (rest.0, cleanup.requests + rest.1)
  }

  /** Re-pricing, then the order-count gate and the trade. */
  function AfterCleanup(cfg: Config, state: MarketState, ex: Exchange, top: seq<string>): (CycleOutcome, seq<Action>)
    requires Tradable(cfg) && PricesKnown(state.products)
    requires ex.openOrders.Some? ==> |ex.quotes| == |ex.openOrders.value|
  {
    var gated := Gated(cfg, state, ex, top);
    (gated.0, RemarginRequests(ex, cfg, false) + gated.1)
  }

  /** The order-count gate: no trade at the limit. */
  function Gated(cfg: Config, state: MarketState, ex: Exchange, top: seq<string>): (CycleOutcome, seq<Action>)
    requires Tradable(cfg) && PricesKnown(state.products)
  {
    if AtOrderLimit(ex.orderCount, cfg) then (MaxOrdersReached, []) else Trade(cfg, state, ex, top)
  }

  lemma AppendAssociates(a: seq<Action>, b: seq<Action>, c: seq<Action>)
    ensures a + b + c == a + (b + c)
  {
  }

  predicate NoBuys(requests: seq<Action>)
  {
    forall i :: 0 <= i < |requests| ==> !requests[i].MarketBuy?
  }

  lemma NoBuysAppend(a: seq<Action>, b: seq<Action>)
    requires NoBuys(a) && NoBuys(b)
    ensures NoBuys(a + b)
  {
    forall i | 0 <= i < |a + b| ensures !(a + b)[i].MarketBuy? {
      if i >= |a| {
        assert (a + b)[i] == b[i - |a|];
      }
    }
  }

  /** Re-pricing only cancels and sells. */
  lemma {:induction false} RemarginNeverBuys(orders: seq<OpenOrder>, quotes: seq<Quote>, k: nat, margin: real,
                                             stopMargin: real, force: bool, targetPrice: Option<real>)
    requires k <= |orders| && k <= |quotes|
    requires 1.0 + margin != 0.0 && 1.0 + stopMargin != 0.0
    ensures NoBuys(RemarginPass(orders, quotes, k, margin, stopMargin, force, targetPrice).requests)
  {
    if k > 0 {
      var prev := RemarginPass(orders, quotes, k - 1, margin, stopMargin, force, targetPrice);
      RemarginNeverBuys(orders, quotes, k - 1, margin, stopMargin, force, targetPrice);
      var o := orders[k - 1];
      var sell := LimitSell(o.productId, SellPrice(quotes[k - 1].ticker, targetPrice, ResellMargin), o.size);
      NoBuysAppend(prev.requests, [Cancel(o.id)]);
      NoBuysAppend(prev.requests, [Cancel(o.id), sell]);
    }
  }

  /** Selling orphaned holdings only sells. */
  lemma {:induction false} CleanupNeverBuys(crypto: Dict<real>, products: Dict<Product>, quotes: seq<OrphanQuote>, k: nat,
                                            targetPrice: Option<real>)
    requires k <= |crypto| && k <= |quotes|
    ensures NoBuys(CleanupPass(crypto, products, quotes, k, targetPrice).requests)
  {
    if k > 0 {
      var prev := CleanupPass(crypto, products, quotes, k - 1, targetPrice);
      CleanupNeverBuys(crypto, products, quotes, k - 1, targetPrice);
      NoBuysAppend(prev.requests, [OrphanSell(crypto[k - 1], quotes[k - 1], targetPrice)]);
    }
  }

  /** The trade's only market buy comes first and is for the chosen product. */
  lemma TradeBuysOnlyTheChoice(cfg: Config, state: MarketState, ex: Exchange, top: seq<string>)
    requires Tradable(cfg) && PricesKnown(state.products)
    ensures BuyChoice(state, cfg, top).None? ==> Trade(cfg, state, ex, top).1 == []
    ensures BuyChoice(state, cfg, top).Some? ==> OnlyBuysFirst(Trade(cfg, state, ex, top).1, BuyChoice(state, cfg, top).value.0)
  {
    TradeForBuysOnlyTheChoice(BuyChoice(state, cfg, top), state.cash, cfg, ex);
  }

  lemma TradeForBuysOnlyTheChoice(choice: Option<(string, Product)>, cash: real, cfg: Config, ex: Exchange)
    requires Tradable(cfg) && (choice.Some? ==> choice.value.1.price != 0.0)
    ensures choice.None? ==> TradeFor(choice, cash, cfg, ex).1 == []
    ensures choice.Some? ==> OnlyBuysFirst(TradeFor(choice, cash, cfg, ex).1, choice.value.0)
  {
    if choice.Some? {
      var buys := Purchase(choice, cash, cfg.fraction.n);
      assert OnlyBuysFirst(buys, choice.value.0);
      if buys != [] && ex.buyReply.Some? {
        var listing := Listing(ex.buyReply.value, choice.value.1.price, cfg, ex).1;
        OnlyBuysFirstAppend(buys, listing, choice.value.0);
      }
    }
  }

  lemma OnlyBuysFirstAppend(a: seq<Action>, b: seq<Action>, productId: string)
    requires OnlyBuysFirst(a, productId) && NoBuys(b)
    ensures OnlyBuysFirst(a + b, productId)
  {
  }

  predicate OnlyBuysFirst(requests: seq<Action>, productId: string)
  {
    forall i :: 0 <= i < |requests| && requests[i].MarketBuy? ==> i == 0 && requests[i].productId == productId
  }

  /** No two requests are market buys. */
  predicate AtMostOneBuy(requests: seq<Action>)
  {
    forall i, j :: 0 <= i < j < |requests| ==> !(requests[i].MarketBuy? && requests[j].MarketBuy?)
  }

  /** Every market buy is for `productId`. */
  predicate BuysOnly(requests: seq<Action>, productId: string)
  {
    forall i :: 0 <= i < |requests| && requests[i].MarketBuy? ==> requests[i].productId == productId
  }

  /** Requests that never buy, followed by a trade whose only buy comes first. */
  lemma BuysBehind(before: seq<Action>, trade: seq<Action>, productId: string)
    requires NoBuys(before) && OnlyBuysFirst(trade, productId)
    ensures AtMostOneBuy(before + trade) && BuysOnly(before + trade, productId)
  {
    var r := before + trade;
    forall i | 0 <= i < |r| && r[i].MarketBuy?
      ensures i == |before| && r[i].productId == productId
    {
      assert i >= |before| && r[i] == trade[i - |before|];
    }
  }

  /** The re-pricing and orphan sale before the trade never buy. */
  lemma BeforeTradeNeverBuys(cfg: Config, state: MarketState, ex: Exchange)
    requires Tradable(cfg)
    requires ex.openOrders.Some? ==> |ex.quotes| == |ex.openOrders.value|
    requires |ex.orphanQuotes| == |state.crypto|
    ensures NoBuys(RemarginRequests(ex, cfg, true)) && NoBuys(RemarginRequests(ex, cfg, false))
    ensures NoBuys(CleanupPass(state.crypto, state.products, ex.orphanQuotes, |state.crypto|, None).requests)
  {
    if ex.openOrders.Some? {
      RemarginNeverBuys(ex.openOrders.value, ex.quotes, |ex.openOrders.value|, cfg.margin.n, cfg.stopMargin.n, true, None);
      RemarginNeverBuys(ex.openOrders.value, ex.quotes, |ex.openOrders.value|, cfg.margin.n, cfg.stopMargin.n, false, None);
    }
    CleanupNeverBuys(state.crypto, state.products, ex.orphanQuotes, |state.crypto|, None);
  }

  /** A cycle places at most one market buy, and only for the product `BuyChoice` picks; never
      when the gain has reached the walk-away threshold, when testing, or at the order limit. */
  lemma CycleBuysOnlyTheChoice(cfg: Config, gain: real, state: MarketState, ex: Exchange, top: seq<string>)
    requires Tradable(cfg) && PricesKnown(state.products)
    requires ex.openOrders.Some? ==> |ex.quotes| == |ex.openOrders.value|
    requires |ex.orphanQuotes| == |state.crypto|
    ensures AtMostOneBuy(Cycle(cfg, gain, state, ex, top).1)
    ensures !NoBuys(Cycle(cfg, gain, state, ex, top).1) ==>
              BuyChoice(state, cfg, top).Some? && BuysOnly(Cycle(cfg, gain, state, ex, top).1, BuyChoice(state, cfg, top).value.0)
              && !NumGe(gain, cfg.walkAway) && !Truthy(cfg.isTesting) && !AtOrderLimit(ex.orderCount, cfg)
  {
    var requests := Cycle(cfg, gain, state, ex, top).1;
    BeforeTradeNeverBuys(cfg, state, ex);
    var cleanup := CleanupPass(state.crypto, state.products, ex.orphanQuotes, |state.crypto|, None).requests;
    var remargin := RemarginRequests(ex, cfg, false);
    NoBuysAppend(cleanup, remargin);
    if NumGe(gain, cfg.walkAway) || Truthy(cfg.isTesting) {
    } else if CleanupPass(state.crypto, state.products, ex.orphanQuotes, |state.crypto|, None).aborted {
    } else {
      var gated := Gated(cfg, state, ex, top).1;
      assert requests == cleanup + (remargin + gated);
      AppendAssociates(cleanup, remargin, gated);
      if AtOrderLimit(ex.orderCount, cfg) {
        NoBuysAppend(cleanup + remargin, gated);
      } else {
        TradeBuysOnlyTheChoice(cfg, state, ex, top);
        if BuyChoice(state, cfg, top).Some? {
          BuysBehind(cleanup + remargin, gated, BuyChoice(state, cfg, top).value.0);
        } else {
          NoBuysAppend(cleanup + remargin, gated);
        }
      }
    }
  }

  /** After a POST `/config` whose testing flag is truthy, a cycle either walks away,
      re-pricing the open orders, or stops before any order is sent. It never buys. */
  lemma PostedTestingCycleNeverBuys(current: Config, body: Config, gain: real, state: MarketState, ex: Exchange, top: seq<string>)
    requires Truthy(body.isTesting)
    requires Tradable(MergeConfig(current, body)) && PricesKnown(state.products)
    requires ex.openOrders.Some? ==> |ex.quotes| == |ex.openOrders.value|
    requires |ex.orphanQuotes| == |state.crypto|
    ensures var (outcome, requests) := Cycle(MergeConfig(current, body), gain, state, ex, top);
            (outcome == WalkedAway || (outcome == TestingOnly && requests == [])) && NoBuys(requests)
  {
    var cfg := MergeConfig(current, body);
    assert Truthy(cfg.isTesting);
    if ex.openOrders.Some? {
      RemarginNeverBuys(ex.openOrders.value, ex.quotes, |ex.openOrders.value|, cfg.margin.n, cfg.stopMargin.n, true, None);
    }
  }

  /** With a named strategy, a cycle over a state the builder made never buys. */
  lemma BuiltStateCycleNeverBuys(cfg: Config, gain: real, ex: Exchange, top: seq<string>,
                                 sqrt: real -> real, slopeOf: seq<real> -> real)
    requires Tradable(cfg) && IsNamedStrategy(cfg.strategy) && Fits(ex, cfg.wakeTime)
    ensures var state := Built(ex, cfg.wakeTime, sqrt, slopeOf);
            NoBuys(Cycle(cfg, gain, state, ex, top).1)
  {
    var state := Built(ex, cfg.wakeTime, sqrt, slopeOf);
    NamedStrategyBuysNothingFromBuiltState(state, cfg, top);
    CycleBuysOnlyTheChoice(cfg, gain, state, ex, top);
  }

  /** After a fill, the last request is the limit sell of what was bought, at the margin over
      the buy price `buy` remembered (the market buy's reply carries no price); a trade ends
      listed only after a market buy of the chosen product at the rounded size was sent. */
  lemma ListedSellFollowsBuy(cfg: Config, state: MarketState, ex: Exchange, top: seq<string>)
    requires Tradable(cfg) && PricesKnown(state.products)
    requires Trade(cfg, state, ex, top).0.BoughtAndListed?
    ensures var requests := Trade(cfg, state, ex, top).1;
            var choice := BuyChoice(state, cfg, top);
            choice.Some? && ex.buyReply.Some? && |requests| > 0
            && requests[0] == MarketBuy(choice.value.0, SetSigDig(CalcSize(choice.value.1.price, state.cash, cfg.fraction.n), choice.value.1.inc))
            && (Trade(cfg, state, ex, top).0.sell.Listed? <==> FirstFill(ex.fills).Some?)
            && (Trade(cfg, state, ex, top).0.sell.Listed? ==>
                  requests[|requests| - 1] == LimitSell(ex.buyReply.value.productId,
                    SellPrice(ex.buyReply.value.price, Some(choice.value.1.price), cfg.margin.n), ex.buyReply.value.size))
  {
  }

  // ---------------------------------------------------------------------------------------
  // Configuration update
  // ---------------------------------------------------------------------------------------

  /** `offered && (current = offered)`: a truthy offer replaces the value, any other is ignored. */
  function Keep(current: Val, offered: Val): Val
  {
    if Truthy(offered) then offered else current
  }

  /** `maxOrders` is taken when the offer is neither `null` nor `undefined` and is not NaN
      after numeric conversion, so an offered 0 is taken. */
  predicate AcceptsMaxOrders(offered: Val)
  {
    !offered.Undefined? && !offered.Null? && !IsNaN(offered)
  }

  /** POST `/config`: the body's fields (`undefined` when absent) merged into the variables.
      The testing flag is always replaced by the body's flag read as a boolean. */
  function MergeConfig(cfg: Config, body: Config): Config
  {
    Config(
      wakeTime := Keep(cfg.wakeTime, body.wakeTime),
      fraction := Keep(cfg.fraction, body.fraction),
      margin := Keep(cfg.margin, body.margin),
      stopMargin := Keep(cfg.stopMargin, body.stopMargin),
      walkAway := Keep(cfg.walkAway, body.walkAway),
      strategy := Keep(cfg.strategy, body.strategy),
      maxVwap := Keep(cfg.maxVwap, body.maxVwap),
      minSlope := Keep(cfg.minSlope, body.minSlope),
      isTesting := Bool(Truthy(body.isTesting)),
      maxOrders := if AcceptsMaxOrders(body.maxOrders) then body.maxOrders else cfg.maxOrders,
      maxVolatility := Keep(cfg.maxVolatility, body.maxVolatility),
      minLoss := Keep(cfg.minLoss, body.minLoss),
      maxRSI := Keep(cfg.maxRSI, body.maxRSI),
      minRelVol := Keep(cfg.minRelVol, body.minRelVol),
      maxRounds := Keep(cfg.maxRounds, body.maxRounds),
      minMarketSlopeCategory := Keep(cfg.minMarketSlopeCategory, body.minMarketSlopeCategory),
      maxRank := Keep(cfg.maxRank, body.maxRank))
  }

  /** A body with no fields at all. */
  const EmptyBody: Config := Config(Undefined, Undefined, Undefined, Undefined, Undefined, Undefined,
    Undefined, Undefined, Undefined, Undefined, Undefined, Undefined, Undefined, Undefined, Undefined,
    Undefined, Undefined)

  /** Posting the same body twice has the effect of posting it once. */
  lemma MergeIdempotent(cfg: Config, body: Config)
    ensures MergeConfig(MergeConfig(cfg, body), body) == MergeConfig(cfg, body)
  {
  }

  /** Posting back the configuration the server reports changes nothing, as long as its testing
      flag is a boolean. */
  lemma MergeOwnConfigIsIdentity(cfg: Config)
    requires cfg.isTesting.Bool?
    ensures MergeConfig(cfg, cfg) == cfg
  {
  }

  /** An empty body changes one thing: it switches testing off, and so enables trading. */
  lemma EmptyBodyOnlyEndsTesting(cfg: Config)
    ensures MergeConfig(cfg, EmptyBody) == cfg.(isTesting := Bool(false))
    ensures !Truthy(MergeConfig(cfg, EmptyBody).isTesting)
  {
  }

  /** A zero is ignored for every threshold but `maxOrders`, where it is taken and switches the
      order-count gate off. */
  lemma ZeroOffers(cfg: Config, body: Config, orderCount: nat)
    requires body.margin == Num(0.0) && body.maxOrders == Num(0.0)
    ensures MergeConfig(cfg, body).margin == cfg.margin
    ensures MergeConfig(cfg, body).maxOrders == Num(0.0)
    ensures !AtOrderLimit(orderCount, MergeConfig(cfg, body))
  {
  }

  /** A `maxOrders` that is not a numeral is refused; a numeral string is taken as sent. */
  lemma MaxOrdersNumerals(cfg: Config, body: Config)
    ensures body.maxOrders == Str("abc") ==> MergeConfig(cfg, body).maxOrders == cfg.maxOrders
    ensures body.maxOrders == Str("3") ==> MergeConfig(cfg, body).maxOrders == Str("3")
  {
    OtherValuesAreNaN();
    DigitStringNumber("3");
  }

  // ---------------------------------------------------------------------------------------
  // The process
  // ---------------------------------------------------------------------------------------

  /** The orphan sale, the re-pricing pass, the order-count gate and the trade, on a fresh
      order factory. */
  method RunReconcile(state: MarketState, factory: OrderFactory, cfg: Config, top: seq<string>, ex: Exchange)
      returns (outcome: CycleOutcome)
    requires Tradable(cfg) && PricesKnown(state.products) && factory.targetPrice.None?
    requires ex.openOrders.Some? ==> |ex.quotes| == |ex.openOrders.value|
    requires |ex.orphanQuotes| == |state.crypto| && |ex.fills| == MaxPolls
    modifies factory
    ensures outcome == Reconcile(cfg, state, ex, top).0
    ensures factory.log == old(factory.log) + Reconcile(cfg, state, ex, top).1
  {
    ghost var cleanup := CleanupPass(state.crypto, state.products, ex.orphanQuotes, |state.crypto|, None);
    var completed := factory.CleanOrphans(state.crypto, state.products, ex.orphanQuotes);
    if !completed {
      return OrphanCleanupThrew;
    }
    outcome := RunAfterCleanup(state, factory, cfg, top, ex);
    AppendAssociates(old(factory.log), cleanup.requests, AfterCleanup(cfg, state, ex, top).1);
  }

  /** `remargin`, then the order-count gate and the trade. */
  method RunAfterCleanup(state: MarketState, factory: OrderFactory, cfg: Config, top: seq<string>, ex: Exchange)
      returns (outcome: CycleOutcome)
    requires Tradable(cfg) && PricesKnown(state.products) && factory.targetPrice.None?
    requires ex.openOrders.Some? ==> |ex.quotes| == |ex.openOrders.value|
    requires |ex.fills| == MaxPolls
    modifies factory
    ensures outcome == AfterCleanup(cfg, state, ex, top).0
    ensures factory.log == old(factory.log) + AfterCleanup(cfg, state, ex, top).1
  {
    var _ := factory.Remargin(cfg.margin.n, cfg.stopMargin.n, false, ex.openOrders, ex.quotes);
    assert factory.log == old(factory.log) + RemarginRequests(ex, cfg, false) by {
      if ex.openOrders.None? {
        assert old(factory.log) + [] == old(factory.log);
      }
    }
    outcome := RunGated(state, factory, cfg, top, ex);
    AppendAssociates(old(factory.log), RemarginRequests(ex, cfg, false), Gated(cfg, state, ex, top).1);
  }

  /** Stops at the order limit, trades otherwise. */
  method RunGated(state: MarketState, factory: OrderFactory, cfg: Config, top: seq<string>, ex: Exchange)
      returns (outcome: CycleOutcome)
    requires Tradable(cfg) && PricesKnown(state.products) && factory.targetPrice.None?
    requires |ex.fills| == MaxPolls
    modifies factory
    ensures outcome == Gated(cfg, state, ex, top).0
    ensures factory.log == old(factory.log) + Gated(cfg, state, ex, top).1
  {
    if NumGe(ex.orderCount as real, cfg.maxOrders) && NumLt(0.0, cfg.maxOrders) {
      return MaxOrdersReached;
    }
    outcome := RunTrade(state, factory, cfg, top, ex);
  }

  /** `executeBuy`, then one `executeSell` attempt when a buy order came back. */
  method RunTrade(state: MarketState, factory: OrderFactory, cfg: Config, top: seq<string>, ex: Exchange)
      returns (outcome: CycleOutcome)
    requires Tradable(cfg) && PricesKnown(state.products) && |ex.fills| == MaxPolls
    modifies factory
    ensures outcome == Trade(cfg, state, ex, top).0
    ensures factory.log == old(factory.log) + Trade(cfg, state, ex, top).1
  {
    var buyOrder := ExecuteBuy(state, factory, cfg.fraction.n, cfg, top, ex.buyReply);
    if buyOrder.None? {
      return NoBuy;
    }
    outcome := ListBought(buyOrder.value, factory, cfg, ex);
    AppendAssociates(old(factory.log), Purchase(BuyChoice(state, cfg, top), state.cash, cfg.fraction.n),
                     Listing(buyOrder.value, BuyChoice(state, cfg, top).value.1.price, cfg, ex).1);
  }

  /** The one `executeSell` attempt after the buy, with `buy`'s remembered price. */
  method ListBought(bought: PlacedOrder, factory: OrderFactory, cfg: Config, ex: Exchange) returns (outcome: CycleOutcome)
    requires Tradable(cfg) && |ex.fills| == MaxPolls && factory.targetPrice.Some?
    modifies factory
    ensures factory.targetPrice == old(factory.targetPrice)
    ensures outcome == Listing(bought, factory.targetPrice.value, cfg, ex).0
    ensures factory.log == old(factory.log) + Listing(bought, factory.targetPrice.value, cfg, ex).1
  {
    var sellResult, _ := ExecuteSell(bought, factory, cfg.margin.n, ex.fills, ex.sellReply);
    outcome := BoughtAndListed(sellResult);
  }

  /** The server process's module-level state: the configuration variables, the portfolio
      tracker, the market-cap ranking, the last state reported by `/state`, the wake clock
      (`None` until the first POST `/config` starts it; `Some(w)` once started with wake time
      `w`), and every request sent to the exchange. `lastBody` records the body of the last
      POST `/config`. */
  class Bot {
    var config: Config
    const portfolio: PortfolioTracker
    var topCoins: seq<string>
    var lastState: Option<MarketState>
    var clock: Option<Val>
    var sent: seq<Action>
    ghost var lastBody: Option<Config>

    /** The clock runs exactly when a configuration was posted; it runs on the current wake
        time, and the testing flag is the one that body carried. */
    ghost predicate Valid()
      reads this, portfolio
    {
      && portfolio.Valid()
      && (clock.Some? <==> lastBody.Some?)
      && (clock.Some? ==> clock.value == config.wakeTime)
      && (lastBody.Some? ==> config.isTesting == Bool(Truthy(lastBody.value.isTesting)))
    }

    /** Start-up: the configuration from the command line and a fresh tracker. No wake clock
        runs yet: `setClock` is only called by POST `/config`. */
    constructor (argv: seq<string>, top: seq<string>)
      ensures Valid() && fresh(portfolio)
      ensures config == StartupConfig(argv) && clock == None
      ensures topCoins == top && lastState == None && sent == []
      ensures portfolio.gain == 0.0 && portfolio.initialValue == 0.0 && !portfolio.frozen
    {
      config := StartupConfig(argv);
      portfolio := new PortfolioTracker();
      topCoins := top;
      lastState := None;
      clock := None;
      sent := [];
      lastBody := None;
    }

    /** `main`: builds the state, then runs the gates `Cycle` describes. */
    method Wake(ex: Exchange, sqrt: real -> real, slopeOf: seq<real> -> real) returns (outcome: CycleOutcome)
      requires Valid() && Tradable(config) && Fits(ex, config.wakeTime)
      modifies this, portfolio
      ensures Valid()
      ensures config == old(config) && topCoins == old(topCoins) && clock == old(clock) && lastBody == old(lastBody)
      ensures ex.products.Some? && ex.accounts.Some? ==> portfolio.balances == BalancesOf(ex.accounts.value)
      ensures ex.products.Some? && ex.accounts.Some? ==>
        portfolio.prices == PricesAfter(old(portfolio.prices), TargetProducts(ex.products.value), ex.feeds,
                                        Reached(ex.feeds, config.wakeTime.Str?, |ex.feeds|))
      ensures ex.products.None? || ex.accounts.None? ==>
        portfolio.balances == old(portfolio.balances) && portfolio.prices == old(portfolio.prices)
      ensures old(portfolio.initialValue) == 0.0 ==>
        portfolio.initialValue == Value(portfolio.balances, portfolio.prices) && portfolio.gain == old(portfolio.gain)
      ensures old(portfolio.initialValue) != 0.0 ==>
        portfolio.initialValue == old(portfolio.initialValue)
        && portfolio.gain == Gain(Value(portfolio.balances, portfolio.prices), portfolio.initialValue)
      ensures var c := Cycle(config, portfolio.gain, Built(ex, config.wakeTime, sqrt, slopeOf), ex, topCoins);
              outcome == c.0 && sent == old(sent) + c.1
      ensures outcome.WalkedAway? ==> portfolio.frozen && lastState == old(lastState)
      ensures !outcome.WalkedAway? ==>
        portfolio.frozen == old(portfolio.frozen) && lastState == Some(Built(ex, config.wakeTime, sqrt, slopeOf))
    {
      var state := BuildState(portfolio, ex.products, ex.accounts, ex.feeds, config.wakeTime, sqrt, slopeOf);
      assert state == Built(ex, config.wakeTime, sqrt, slopeOf);
      outcome := RunCycle(state, ex);
    }

    /** The gates of `main` on the state it built: walk away, stop when testing, then the
        orphan sale, re-pricing, the order-count gate and the trade on a fresh order factory. */
    method RunCycle(state: MarketState, ex: Exchange) returns (outcome: CycleOutcome)
      requires Valid() && Tradable(config) && PricesKnown(state.products)
      requires ex.openOrders.Some? ==> |ex.quotes| == |ex.openOrders.value|
      requires |ex.orphanQuotes| == |state.crypto| && |ex.fills| == MaxPolls
      modifies this, portfolio
      ensures Valid()
      ensures config == old(config) && topCoins == old(topCoins) && clock == old(clock) && lastBody == old(lastBody)
      ensures portfolio.gain == old(portfolio.gain) && portfolio.initialValue == old(portfolio.initialValue)
      ensures portfolio.balances == old(portfolio.balances) && portfolio.prices == old(portfolio.prices)
      ensures var c := Cycle(config, portfolio.gain, state, ex, topCoins);
              outcome == c.0 && sent == old(sent) + c.1
      ensures outcome.WalkedAway? ==> portfolio.frozen && lastState == old(lastState)
      ensures !outcome.WalkedAway? ==> portfolio.frozen == old(portfolio.frozen) && lastState == Some(state)
    {
      var factory := new OrderFactory();
      var margin, stopMargin := config.margin.n, config.stopMargin.n;

      var currentGain := portfolio.GetGain();
      if NumGe(currentGain, config.walkAway) {
        ExecuteWalkAway(portfolio, factory, margin, stopMargin, ex.openOrders, ex.quotes);
        assert factory.log == RemarginRequests(ex, config, true);
        sent := sent + factory.log;
        return WalkedAway;
      }

      lastState := Some(state);
      if Truthy(config.isTesting) {
        return TestingOnly;
      }

      outcome := RunReconcile(state, factory, config, topCoins, ex);
      assert factory.log == Reconcile(config, state, ex, topCoins).1;
      sent := sent + factory.log;
    }

    /** A tick of the wake clock: nothing happens before a configuration was posted (no clock
        runs) or while the portfolio is frozen; otherwise a cycle runs, with the testing flag
        of the last posted body. */
    method Tick(ex: Exchange, sqrt: real -> real, slopeOf: seq<real> -> real) returns (outcome: Option<CycleOutcome>)
      requires Valid() && Tradable(config) && Fits(ex, config.wakeTime)
      modifies this, portfolio
      ensures Valid()
      ensures config == old(config) && topCoins == old(topCoins) && clock == old(clock) && lastBody == old(lastBody)
      ensures clock.None? || old(portfolio.frozen) ==>
        (outcome.None? && sent == old(sent) && lastState == old(lastState)
         && portfolio.gain == old(portfolio.gain) && portfolio.initialValue == old(portfolio.initialValue)
         && portfolio.balances == old(portfolio.balances) && portfolio.prices == old(portfolio.prices)
         && portfolio.frozen == old(portfolio.frozen))
      ensures clock.Some? && !old(portfolio.frozen) ==>
        (outcome.Some?
         && lastBody.Some? && config.isTesting == Bool(Truthy(lastBody.value.isTesting))
         && var c := Cycle(config, portfolio.gain, Built(ex, config.wakeTime, sqrt, slopeOf), ex, topCoins);
            outcome.value == c.0 && sent == old(sent) + c.1)
      ensures clock.Some? && !old(portfolio.frozen) ==>
        if outcome.Some? && outcome.value.WalkedAway? then portfolio.frozen && lastState == old(lastState)
        else !portfolio.frozen && lastState == Some(Built(ex, config.wakeTime, sqrt, slopeOf))
      ensures clock.Some? && !old(portfolio.frozen) && ex.products.Some? && ex.accounts.Some? ==>
        portfolio.balances == BalancesOf(ex.accounts.value)
        && portfolio.prices == PricesAfter(old(portfolio.prices), TargetProducts(ex.products.value), ex.feeds,
                                           Reached(ex.feeds, config.wakeTime.Str?, |ex.feeds|))
      ensures clock.Some? && !old(portfolio.frozen) && (ex.products.None? || ex.accounts.None?) ==>
        portfolio.balances == old(portfolio.balances) && portfolio.prices == old(portfolio.prices)
      ensures clock.Some? && !old(portfolio.frozen) && old(portfolio.initialValue) == 0.0 ==>
        portfolio.initialValue == Value(portfolio.balances, portfolio.prices) && portfolio.gain == old(portfolio.gain)
      ensures clock.Some? && !old(portfolio.frozen) && old(portfolio.initialValue) != 0.0 ==>
        portfolio.initialValue == old(portfolio.initialValue)
        && portfolio.gain == Gain(Value(portfolio.balances, portfolio.prices), portfolio.initialValue)
    {
      if clock.None? {
        return None;
      }
      var frozen := portfolio.IsFrozen();
      if frozen {
        return None;
      }
      var o := Wake(ex, sqrt, slopeOf);
      outcome := Some(o);
    }

    /** The daily clock: clears the tracker's gain, baseline and freeze and takes the new
        market-cap ranking. */
    method DailyTick(top: seq<string>)
      requires Valid()
      modifies this, portfolio
      ensures Valid()
      ensures portfolio.gain == 0.0 && portfolio.initialValue == 0.0 && !portfolio.frozen
      ensures portfolio.balances == old(portfolio.balances) && portfolio.prices == old(portfolio.prices)
      ensures topCoins == top
      ensures config == old(config) && lastState == old(lastState) && sent == old(sent)
      ensures clock == old(clock) && lastBody == old(lastBody)
    {
      portfolio.Reset();
      topCoins := top;
    }

    /** POST `/config`: merges the body and (re)starts the wake clock with the resulting wake
        time. */
    method PostConfig(body: Config) returns (reported: Config)
      requires Valid()
      modifies this
      ensures Valid()
      ensures config == MergeConfig(old(config), body) && reported == config
      ensures clock == Some(config.wakeTime) && lastBody == Some(body)
      ensures config.isTesting == Bool(Truthy(body.isTesting))
      ensures topCoins == old(topCoins) && lastState == old(lastState) && sent == old(sent)
    {
      config := MergeConfig(config, body);
      clock := Some(config.wakeTime);
      lastBody := Some(body);
      reported := config;
    }
  }
}
