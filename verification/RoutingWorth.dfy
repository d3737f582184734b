/** What each respect of a device is worth under each strategy, in numbers. */
module RoutingWorth {
  import opened Common
  import opened Routing

  function Base(strategy: string, d: Device, cost: real, country: string): real {
    BaseScore(d, StrategyFor(strategy), cost, country)
  }

  /** Cost per message and latency where they still make a difference. */
  predicate Counts(d: Device, cost: real) {
    0.0 <= cost <= 0.1 && 0.0 <= d.avgLatencyMs <= 10000.0
  }

  /** A device in the recipient's country has seven tenths more of the geographic score than any other. */
  function Near(d: Device, country: string): real {
    if country != "" && d.country == country then 0.7 else 0.0
  }

  /** What is worth how much: a point of reliability, of reputation, ten cents less per message, ten seconds
      less latency, and the country. */
  function Advantage(d: Device, e: Device, costD: real, costE: real, country: string, w: Strategy): real {
    (d.reliability - e.reliability) * w.reliability
    + (d.reputation - e.reputation) * w.reputation
    + (10.0 * (costE - costD)) * w.cost
    + ((e.avgLatencyMs - d.avgLatencyMs) / 10000.0) * w.latency
    + (Near(d, country) - Near(e, country)) * w.geo
  }

  /** Scores of two devices lie apart by what their differences are worth. */
  ghost predicate Worth(strategy: string, reliability: real, reputation: real, cost: real, latency: real, geo: real) {
    forall d, e, costD, costE, country :: Counts(d, costD) && Counts(e, costE) ==>
      Base(strategy, d, costD, country) - Base(strategy, e, costE, country)
      == Advantage(d, e, costD, costE, country, Strategy(reliability, reputation, cost, latency, geo))
  }

  /** Worthless in every other respect, a device still has its geographic score. */
  ghost predicate GeoAlone(strategy: string, geo: real) {
    forall d: Device, cost, country ::
      d.reliability == 0.0 && d.reputation == 0.0 && d.avgLatencyMs >= 10000.0 && cost >= 0.1 ==>
        Base(strategy, d, cost, country)
        == (if country == "" then 0.5 else if d.country == country then 1.0 else 0.3) * geo
  }

  /** Costs and latencies beyond the range count as its end. */
  ghost predicate Capped(strategy: string) {
    forall d: Device, cost, country ::
      && (cost >= 0.1 ==> Base(strategy, d, cost, country) == Base(strategy, d, 0.1, country))
      && (d.avgLatencyMs >= 10000.0 ==>
            Base(strategy, d, cost, country) == Base(strategy, d.(avgLatencyMs := 10000.0), cost, country))
  }

  lemma PartsApart(x: real, y: real, difference: real, w: real)
    requires x - y == difference
    ensures Part(x, w) - Part(y, w) == Part(difference, w)
  {
  }

  lemma PartIsProduct(x: real, w: real)
    ensures Part(x, w) == x * w
  {
  }

  lemma NormalsApart(d: Device, e: Device, costD: real, costE: real)
    requires Counts(d, costD) && Counts(e, costE)
    ensures NormalCost(costD) - NormalCost(costE) == 10.0 * (costE - costD)
    ensures NormalLatency(d.avgLatencyMs) - NormalLatency(e.avgLatencyMs)
         == (e.avgLatencyMs - d.avgLatencyMs) / 10000.0
  {
  }

  lemma GeoApart(d: Device, e: Device, country: string)
    ensures GeoScore(d, country) - GeoScore(e, country) == Near(d, country) - Near(e, country)
  {
  }

  lemma ApartBy(w: Strategy, d: Device, e: Device, costD: real, costE: real, country: string)
    requires Counts(d, costD) && Counts(e, costE)
    ensures BaseScore(d, w, costD, country) - BaseScore(e, w, costE, country)
      == Advantage(d, e, costD, costE, country, w)
  {
    hide Part, NormalCost, NormalLatency, GeoScore, Near;
    NormalsApart(d, e, costD, costE);
    GeoApart(d, e, country);
    var cost, latency := 10.0 * (costE - costD), (e.avgLatencyMs - d.avgLatencyMs) / 10000.0;
    PartsApart(d.reliability, e.reliability, d.reliability - e.reliability, w.reliability);
    PartsApart(d.reputation, e.reputation, d.reputation - e.reputation, w.reputation);
    PartsApart(NormalCost(costD), NormalCost(costE), cost, w.cost);
    PartsApart(NormalLatency(d.avgLatencyMs), NormalLatency(e.avgLatencyMs), latency, w.latency);
    PartsApart(GeoScore(d, country), GeoScore(e, country), Near(d, country) - Near(e, country), w.geo);
    PartIsProduct(d.reliability - e.reliability, w.reliability);
    PartIsProduct(d.reputation - e.reputation, w.reputation);
    PartIsProduct(cost, w.cost);
    PartIsProduct(latency, w.latency);
    PartIsProduct(Near(d, country) - Near(e, country), w.geo);
  }

  lemma WorthIsWeights(strategy: string)
    ensures var w := StrategyFor(strategy);
      Worth(strategy, w.reliability, w.reputation, w.cost, w.latency, w.geo)
  {
    var w := StrategyFor(strategy);
    hide StrategyFor, BaseScore, Advantage;
    forall d, e, costD, costE, country | Counts(d, costD) && Counts(e, costE)
      ensures Base(strategy, d, costD, country) - Base(strategy, e, costE, country)
        == Advantage(d, e, costD, costE, country, w)
    {
      ApartBy(w, d, e, costD, costE, country);
    }
  }

  lemma GeoIsLeft(strategy: string)
    ensures GeoAlone(strategy, StrategyFor(strategy).geo) && Capped(strategy)
  {
    hide StrategyFor;
  }

  /** The five strategies; any other name scores like the third. */
  lemma StrategiesInNumbers(other: string)
    ensures Worth("fastest_delivery", 0.3, 0.1, 0.0, 0.5, 0.1) && GeoAlone("fastest_delivery", 0.1)
    ensures Worth("lowest_cost", 0.2, 0.1, 0.5, 0.1, 0.1) && GeoAlone("lowest_cost", 0.1)
    ensures Worth("highest_reliability", 0.5, 0.2, 0.1, 0.1, 0.1) && GeoAlone("highest_reliability", 0.1)
    ensures Worth("geo_affinity", 0.2, 0.1, 0.1, 0.1, 0.5) && GeoAlone("geo_affinity", 0.5)
    ensures Worth("profit_optimized", 0.2, 0.1, 0.3, 0.1, 0.1) && GeoAlone("profit_optimized", 0.1)
    ensures other !in {"fastest_delivery", "lowest_cost", "highest_reliability", "geo_affinity", "profit_optimized"} ==>
      forall d, cost, country :: Base(other, d, cost, country) == Base("highest_reliability", d, cost, country)
    ensures Capped(other)
  {
    hide Worth, GeoAlone, Capped, BaseScore;
    WorthIsWeights("fastest_delivery");
    WorthIsWeights("lowest_cost");
    WorthIsWeights("highest_reliability");
    WorthIsWeights("geo_affinity");
    WorthIsWeights("profit_optimized");
    GeoIsLeft("fastest_delivery");
    GeoIsLeft("lowest_cost");
    GeoIsLeft("highest_reliability");
    GeoIsLeft("geo_affinity");
    GeoIsLeft("profit_optimized");
    GeoIsLeft(other);
  }

  /** A device is scored at its own price, and one without a price as free of charge. */
  lemma PriceOf(d: Device, opts: Options, costs: map<string, real>)
    ensures BaseOf(d, opts, costs)
         == Base(opts.strategy, d, if d.id in costs then costs[d.id] else 0.0, opts.recipientCountry)
  {
  }

  /** Every eligible device is scored as often as it is listed, and no other. */
  lemma {:induction false} EveryEligibleOnce(devices: seq<Device>, opts: Options, d: Device)
    ensures multiset(EligibleOf(devices, opts))[d] ==
      if (opts.requireOnline ==> d.status == Online) && (opts.excludeBlocked ==> d.simHealth != Blocked)
         && (opts.excludeDegraded ==> d.simHealth != Degraded) then multiset(devices)[d] else 0
  {
    if devices != [] {
      var front, last := devices[..|devices| - 1], devices[|devices| - 1];
      EveryEligibleOnce(front, opts, d);
      assert devices == front + [last];
    }
  }
}
