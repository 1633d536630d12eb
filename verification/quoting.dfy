/** The quote prices of `_aggressive_quote`: one tick inside the best prices,
    both shifted by the inventory skew, with a fallback to the midpoint plus
    or minus one tick when the shifted quotes would touch or cross. */
module Quoting {
  import opened Params

  datatype Quote = Quote(bid: real, ask: real)

  /** The inventory adjustment `inventory * spread_improvement * inventory_skew`,
      subtracted from both quotes. */
  function Skew(cfg: Config, inv: real): real {
    inv * cfg.spreadImprovement * cfg.inventorySkew
  }

  /** The pennied quotes touch or cross exactly when the book is at most two
      ticks wide, whatever the inventory. */
  predicate Fallback(cfg: Config, bestBid: real, bestAsk: real) {
    bestAsk - bestBid <= 2.0 * cfg.tickSize
  }

  function QuotePrices(cfg: Config, bestBid: real, bestAsk: real, inv: real): (q: Quote)
    requires Valid(cfg)
    ensures q.bid < q.ask
    ensures !Fallback(cfg, bestBid, bestAsk) ==>
              && q.ask - q.bid == bestAsk - bestBid - 2.0 * cfg.tickSize
              && q.bid + q.ask == bestBid + bestAsk - 2.0 * Skew(cfg, inv)
    ensures Fallback(cfg, bestBid, bestAsk) ==>
              && q.ask - q.bid == 2.0 * cfg.tickSize
              && q.bid + q.ask == bestBid + bestAsk
  {
    var adj := Skew(cfg, inv);
    var ourBid := bestBid + cfg.tickSize - adj;
    var ourAsk := bestAsk - cfg.tickSize - adj;
    if ourAsk <= ourBid then
      var mid := (bestBid + bestAsk) / 2.0;
      Quote(mid - cfg.tickSize, mid + cfg.tickSize)
    else
      Quote(ourBid, ourAsk)
  }

  /** With a flat inventory and a book wider than two ticks, both quotes sit
      strictly inside the best prices. */
  lemma FlatQuotesInsideSpread(cfg: Config, bestBid: real, bestAsk: real)
    requires Valid(cfg) && !Fallback(cfg, bestBid, bestAsk)
    ensures bestBid < QuotePrices(cfg, bestBid, bestAsk, 0.0).bid
    ensures QuotePrices(cfg, bestBid, bestAsk, 0.0).ask < bestAsk
  {
    assert Skew(cfg, 0.0) == 0.0;
  }

  /** The fallback quotes never improve on the best bid or the best ask. */
  lemma FallbackQuotesOutsideSpread(cfg: Config, bestBid: real, bestAsk: real, inv: real)
    requires Valid(cfg) && Fallback(cfg, bestBid, bestAsk)
    ensures QuotePrices(cfg, bestBid, bestAsk, inv).bid <= bestBid
    ensures bestAsk <= QuotePrices(cfg, bestBid, bestAsk, inv).ask
  {}

  /** A longer inventory (with non-negative skew coefficients) never raises
      either quote: the skew pushes both prices down to attract sellers. */
  lemma SkewLowersQuotes(cfg: Config, bestBid: real, bestAsk: real, inv1: real, inv2: real)
    requires Valid(cfg)
    requires cfg.spreadImprovement >= 0.0 && cfg.inventorySkew >= 0.0
    requires inv1 <= inv2
    ensures QuotePrices(cfg, bestBid, bestAsk, inv2).bid <= QuotePrices(cfg, bestBid, bestAsk, inv1).bid
    ensures QuotePrices(cfg, bestBid, bestAsk, inv2).ask <= QuotePrices(cfg, bestBid, bestAsk, inv1).ask
  {
    SkewMonotone(cfg, inv1, inv2);
  }

  lemma SkewMonotone(cfg: Config, inv1: real, inv2: real)
    requires cfg.spreadImprovement >= 0.0 && cfg.inventorySkew >= 0.0
    requires inv1 <= inv2
    ensures Skew(cfg, inv1) <= Skew(cfg, inv2)
  {
    var k := cfg.spreadImprovement * cfg.inventorySkew;
    assert k >= 0.0;
    assert Skew(cfg, inv2) - Skew(cfg, inv1) == (inv2 - inv1) * k;
  }

  /** Best prices 100.00 / 100.04 and a flat inventory quote 100.01 / 100.03. */
  lemma QuoteExample(cfg: Config)
    requires Valid(cfg) && cfg.tickSize == 0.01
    ensures QuotePrices(cfg, 100.00, 100.04, 0.0) == Quote(100.01, 100.03)
  {
    assert Skew(cfg, 0.0) == 0.0;
  }
}
