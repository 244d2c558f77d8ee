/** The records the market snapshot is made of, shared by the indicator helpers, the state
    builder, the order logic and the cycle orchestrator. */
module Snapshot {
  import opened Js

  /** One row of the exchange's candle history: `[time, low, high, open, close, volume]`. */
  datatype Candle = Candle(time: real, low: real, high: real, open: real, close: real, volume: real)

  /** The record the state builder stores under a product id. The strategy filter also reads
      `rsi`, `relativeVolume` and `periodSlope`, which the builder never writes: `None` stands
      for the `undefined` such a read yields. */
  datatype Product = Product(
    price: real,
    volatility: real,
    change: real,
    compositeScore: real,
    vwap: real,
    shortVwap: real,
    slope: real,
    shortSlope: real,
    min: real,
    inc: string,
    rsi: Option<real>,
    relativeVolume: Option<real>,
    periodSlope: Option<real>)

  /** The snapshot one wake cycle works on. `products` is keyed by product id (for example
      "BTC-USD"), `crypto` by currency; both keep JavaScript's insertion order.
      `marketSlopeCategory` is read by the buy gate but never written by the builder. */
  datatype MarketState = MarketState(
    cash: real,
    products: Dict<Product>,
    crypto: Dict<real>,
    marketSlopeCategory: Option<real>)

  /** `product[name]` for the numeric fields a strategy name can select as its sort metric;
      any other name reads `undefined`. */
  function Metric(p: Product, name: string): Option<real>
  {
    if name == "price" then Some(p.price)
    else if name == "volatility" then Some(p.volatility)
    else if name == "change" then Some(p.change)
    else if name == "compositeScore" then Some(p.compositeScore)
    else if name == "vwap" then Some(p.vwap)
    else if name == "shortVwap" then Some(p.shortVwap)
    else if name == "slope" then Some(p.slope)
    else if name == "shortSlope" then Some(p.shortSlope)
    else if name == "min" then Some(p.min)
    else if name == "rsi" then p.rsi
    else if name == "relativeVolume" then p.relativeVolume
    else if name == "periodSlope" then p.periodSlope
    else None
  }
}
