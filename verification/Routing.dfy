/** Device selection: filter, score with a random factor, rank, cut. Scores are real numbers. */
module Routing {
  import opened Common

  datatype DeviceStatus = Online | Offline

  datatype SimHealth = Healthy | Degraded | Blocked

  datatype Device = Device(id: string, status: DeviceStatus, simHealth: SimHealth, reliability: real,
                           reputation: real, avgLatencyMs: real, country: string)

  datatype Strategy = Strategy(reliability: real, reputation: real, cost: real, latency: real, geo: real)

  const STRATEGIES: map<string, Strategy> := map[
    "fastest_delivery" := Strategy(0.3, 0.1, 0.0, 0.5, 0.1),
    "lowest_cost" := Strategy(0.2, 0.1, 0.5, 0.1, 0.1),
    "highest_reliability" := Strategy(0.5, 0.2, 0.1, 0.1, 0.1),
    "geo_affinity" := Strategy(0.2, 0.1, 0.1, 0.1, 0.5),
    "profit_optimized" := Strategy(0.2, 0.1, 0.3, 0.1, 0.1)]

  function StrategyFor(name: string): Strategy {
    if name in STRATEGIES then STRATEGIES[name] else STRATEGIES["highest_reliability"]
  }

  datatype ScoredDevice = ScoredDevice(device: Device, total: real, reliability: real, reputation: real,
                                       cost: real, latency: real, geo: real)

  function Part(metric: real, weight: real): real { metric * weight }

  function AtLeastZero(x: real): real { if x < 0.0 then 0.0 else x }

  function NormalCost(costPerSMS: real): real { AtLeastZero(1.0 - costPerSMS / 0.1) }

  function NormalLatency(latencyMs: real): real { AtLeastZero(1.0 - latencyMs / 10000.0) }

  function GeoScore(device: Device, recipientCountry: string): real {
    if recipientCountry == "" then 0.5 else if device.country == recipientCountry then 1.0 else 0.3
  }

  /** Everything but the random factor. */
  function BaseScore(device: Device, w: Strategy, costPerSMS: real, recipientCountry: string): real {
    Part(device.reliability, w.reliability)
    + Part(device.reputation, w.reputation)
    + Part(NormalCost(costPerSMS), w.cost)
    + Part(NormalLatency(device.avgLatencyMs), w.latency)
    + Part(GeoScore(device, recipientCountry), w.geo)
  }

  /** `u` is the random draw, at least zero and below one. */
  function Jitter(u: real): real { 1.0 + (u * 0.1 - 0.05) }

  function Total(base: real, u: real): real { base * Jitter(u) }

  predicate Draw(u: real) { 0.0 <= u < 1.0 }

  method ScoreDevice(device: Device, strategy: string, costPerSMS: real, recipientCountry: string, u: real)
    returns (s: ScoredDevice)
    ensures s.device == device
    ensures s.total == Total(BaseScore(device, StrategyFor(strategy), costPerSMS, recipientCountry), u)
    ensures s.total == (s.reliability + s.reputation + s.cost + s.latency + s.geo) * (0.95 + 0.1 * u)
    ensures var w := StrategyFor(strategy);
      && s.reliability == Part(device.reliability, w.reliability)
      && s.reputation == Part(device.reputation, w.reputation)
      && s.cost == Part(NormalCost(costPerSMS), w.cost)
      && s.latency == Part(NormalLatency(device.avgLatencyMs), w.latency)
      && s.geo == Part(GeoScore(device, recipientCountry), w.geo)
  {
    hide StrategyFor;
    var w := StrategyFor(strategy);
    var normalizedLatency := 1.0 - device.avgLatencyMs / 10000.0;
    if normalizedLatency < 0.0 {
      normalizedLatency := 0.0;
    }
    var normalizedCost := 1.0 - costPerSMS / 0.1;
    if normalizedCost < 0.0 {
      normalizedCost := 0.0;
    }
    var geoScore := 0.5;
    if recipientCountry != "" {
      geoScore := if device.country == recipientCountry then 1.0 else 0.3;
    }
    var reliability, reputation := device.reliability * w.reliability, device.reputation * w.reputation;
    var cost, latency, geo := normalizedCost * w.cost, normalizedLatency * w.latency, geoScore * w.geo;
    var total := reliability + reputation + cost + latency + geo;
    var randomization := 1.0 + (u * 0.1 - 0.05);
    s := ScoredDevice(device, total * randomization, reliability, reputation, cost, latency, geo);
    assert s.total == Total(total, u);
    assert total == BaseScore(device, w, costPerSMS, recipientCountry) by {
      assert reliability == Part(device.reliability, w.reliability)
          && reputation == Part(device.reputation, w.reputation);
      assert cost == Part(normalizedCost, w.cost) && latency == Part(normalizedLatency, w.latency)
          && geo == Part(geoScore, w.geo);
      hide Part;
    }
  }

  // ---- the score itself ----

  function Weight(w: Strategy): real { w.reliability + w.reputation + w.cost + w.latency + w.geo }

  predicate Weights(w: Strategy) {
    w.reliability >= 0.0 && w.reputation >= 0.0 && w.cost >= 0.0 && w.latency >= 0.0 && w.geo >= 0.1
  }

  predicate InRange(d: Device, costPerSMS: real) {
    0.0 <= d.reliability <= 1.0 && 0.0 <= d.reputation <= 1.0 && d.avgLatencyMs >= 0.0 && costPerSMS >= 0.0
  }

  lemma StrategyWeights(name: string)
    ensures Weights(StrategyFor(name))
    ensures Weight(StrategyFor(name)) == if name == "profit_optimized" then 0.8 else 1.0
  {
  }

  lemma Share(x: real, w: real)
    requires 0.0 <= x <= 1.0 && 0.0 <= w
    ensures 0.0 <= Part(x, w) <= w
  {
    var y := 1.0 - x;
    assert x * w >= 0.0 && y * w >= 0.0;
    assert y * w == w - x * w;
  }

  /** In-range inputs score between 0.03 and the strategy's total weight, which is 1 for every strategy
      but profit_optimized, whose weights only add up to 0.8. */
  lemma BaseScoreInRange(d: Device, strategy: string, costPerSMS: real, country: string)
    requires InRange(d, costPerSMS)
    ensures 0.03 <= BaseScore(d, StrategyFor(strategy), costPerSMS, country) <= Weight(StrategyFor(strategy)) <= 1.0
  {
    var w := StrategyFor(strategy);
    StrategyWeights(strategy);
    hide StrategyFor, Part;
    var cost, latency, g := NormalCost(costPerSMS), NormalLatency(d.avgLatencyMs), GeoScore(d, country);
    Share(d.reliability, w.reliability);
    Share(d.reputation, w.reputation);
    Share(cost, w.cost);
    Share(latency, w.latency);
    GeoShare(g, w.geo);
    SumOfShares(Part(d.reliability, w.reliability), Part(d.reputation, w.reputation),
                Part(cost, w.cost), Part(latency, w.latency), Part(g, w.geo), w);
  }

  lemma GeoShare(g: real, w: real)
    requires 0.3 <= g <= 1.0 && w >= 0.1
    ensures 0.03 <= Part(g, w) <= w
  {
    Share(g, w);
    ScaleMono(0.3, g, w);
  }

  lemma SumOfShares(a: real, b: real, c: real, d: real, e: real, w: Strategy)
    requires 0.0 <= a <= w.reliability && 0.0 <= b <= w.reputation && 0.0 <= c <= w.cost
    requires 0.0 <= d <= w.latency && 0.03 <= e <= w.geo
    ensures 0.03 <= a + b + c + d + e <= Weight(w)
  {
  }

  /** At least as good in every respect that is scored. */
  predicate NoWorse(d: Device, costD: real, e: Device, costE: real, country: string) {
    && e.reliability <= d.reliability && e.reputation <= d.reputation
    && d.avgLatencyMs <= e.avgLatencyMs && costD <= costE
    && (e.country == country ==> d.country == country)
  }

  lemma ScaleMono(x: real, y: real, w: real)
    requires x <= y && w >= 0.0
    ensures Part(x, w) <= Part(y, w)
  {
    assert (y - x) * w >= 0.0;
  }

  /** A device that is at least as good in every respect never has the smaller base score. */
  lemma BaseScoreMonotone(d: Device, costD: real, e: Device, costE: real, strategy: string, country: string)
    requires NoWorse(d, costD, e, costE, country)
    ensures BaseScore(e, StrategyFor(strategy), costE, country) <= BaseScore(d, StrategyFor(strategy), costD, country)
  {
    var w := StrategyFor(strategy);
    StrategyWeights(strategy);
    hide StrategyFor, Part;
    ScaleMono(e.reliability, d.reliability, w.reliability);
    ScaleMono(e.reputation, d.reputation, w.reputation);
    ScaleMono(NormalCost(costE), NormalCost(costD), w.cost);
    ScaleMono(NormalLatency(e.avgLatencyMs), NormalLatency(d.avgLatencyMs), w.latency);
    ScaleMono(GeoScore(e, country), GeoScore(d, country), w.geo);
    hide NormalCost, NormalLatency, GeoScore;
  }

  ghost predicate AlwaysAbove(b: real, c: real) {
    forall u, v :: Draw(u) && Draw(v) ==> Total(b, u) > Total(c, v)
  }

  lemma Separated(b: real, c: real, u: real, v: real)
    requires c > 0.0 && 21.0 * c <= 19.0 * b && Draw(u) && Draw(v)
    ensures Total(b, u) > Total(c, v)
  {
    SeparatedBy(b, c, Jitter(u), Jitter(v));
  }

  lemma SeparatedBy(b: real, c: real, x: real, y: real)
    requires c > 0.0 && 21.0 * c <= 19.0 * b && 0.95 <= x && y < 1.05
    ensures b * x > c * y
  {
    ScaleMono(0.95, x, b);
    assert c * (1.05 - y) > 0.0;
  }

  /** The random factor can never reverse two positive base scores exactly when the smaller is at most
      19/21 of the larger. */
  lemma JitterNeverReversesIff(b: real, c: real)
    requires b > 0.0 && c > 0.0
    ensures AlwaysAbove(b, c) <==> 21.0 * c <= 19.0 * b
  {
    if 21.0 * c <= 19.0 * b {
      forall u, v | Draw(u) && Draw(v) ensures Total(b, u) > Total(c, v) {
        Separated(b, c, u, v);
      }
    } else {
      var v := if b <= c then 0.0 else 9.5 * (b - c) / c;
      Reversing(b, c, v);
      assert Draw(0.0) && Draw(v);
    }
  }

  lemma Reversing(b: real, c: real, v: real)
    requires b > 0.0 && c > 0.0 && 21.0 * c > 19.0 * b
    requires v == if b <= c then 0.0 else 9.5 * (b - c) / c
    ensures Draw(v) && Total(b, 0.0) <= Total(c, v)
  {
    if b > c {
      var p := 9.5 * (b - c);
      assert v == p / c;
      Quotient(p, c);
      ReversingProduct(b, c, v);
    } else {
      assert Jitter(0.0) == 0.95;
    }
  }

  lemma Quotient(p: real, c: real)
    requires 0.0 <= p < c
    ensures 0.0 <= p / c < 1.0 && (p / c) * c == p
  {
    var q := p / c;
    assert q * c == p;
    if q >= 1.0 {
      ScaleMono(1.0, q, c);
      assert false;
    }
  }

  lemma ReversingProduct(b: real, c: real, v: real)
    requires v * c == 9.5 * (b - c)
    ensures Total(b, 0.0) == Total(c, v)
  {
    assert Jitter(0.0) == 0.95;
    assert c * Jitter(v) == 0.95 * c + 0.1 * (v * c);
  }

  // ---- ranking and cutting ----

  ghost predicate Descending(s: seq<ScoredDevice>) {
    forall i, j :: 0 <= i < j < |s| ==> s[i].total >= s[j].total
  }

  /** `top` is a best part of `all`: in descending order, and nothing left out scores more. */
  ghost predicate BestOf(all: seq<ScoredDevice>, top: seq<ScoredDevice>, rest: seq<ScoredDevice>) {
    && multiset(top) + multiset(rest) == multiset(all)
    && Descending(top)
    && forall i, j :: 0 <= i < |top| && 0 <= j < |rest| ==> top[i].total >= rest[j].total
  }

  /** The library sort, which promises an order but not which of two equal scores comes first. */
  method SortByScore(scored: seq<ScoredDevice>) returns (ranked: seq<ScoredDevice>)
    ensures multiset(ranked) == multiset(scored) && Descending(ranked)
  {
    hide Insert, Descending;
    ranked := [];
    EmptyDescends();
    for i := 0 to |scored|
      invariant multiset(ranked) == multiset(scored[..i]) && Descending(ranked)
    {
      var k := 0;
      while k < |ranked| && ranked[k].total >= scored[i].total
        invariant k <= |ranked| && (k > 0 ==> ranked[k - 1].total >= scored[i].total)
      {
        k := k + 1;
      }
      assert scored[..i + 1] == scored[..i] + [scored[i]];
      PlaceInOrder(ranked, k, scored[i]);
      ranked := Insert(ranked, k, scored[i]);
    }
    assert scored[..|scored|] == scored;
  }

  lemma EmptyDescends()
    ensures Descending([])
  {
  }

  /** Behind `k` elements that score at least as much, before the first that scores less. */
  lemma PlaceInOrder(s: seq<ScoredDevice>, k: nat, x: ScoredDevice)
    requires Descending(s) && k <= |s|
    requires (k > 0 ==> s[k - 1].total >= x.total) && (k < |s| ==> s[k].total < x.total)
    ensures Descending(Insert(s, k, x)) && multiset(Insert(s, k, x)) == multiset(s) + multiset{x}
  {
    hide Insert, Descending;
    InsertKeepsOrder(s, k, x);
    InsertAdds(s, k, x);
  }

  function Insert(s: seq<ScoredDevice>, k: nat, x: ScoredDevice): seq<ScoredDevice>
    requires k <= |s|
  {
    s[..k] + [x] + s[k..]
  }

  lemma InsertAt(s: seq<ScoredDevice>, k: nat, x: ScoredDevice, i: nat)
    requires k <= |s| && i <= |s|
    ensures |Insert(s, k, x)| == |s| + 1
    ensures Insert(s, k, x)[i] == if i < k then s[i] else if i == k then x else s[i - 1]
  {
  }

  lemma InsertAdds(s: seq<ScoredDevice>, k: nat, x: ScoredDevice)
    requires k <= |s|
    ensures multiset(Insert(s, k, x)) == multiset(s) + multiset{x}
  {
    assert s == s[..k] + s[k..];
  }

  lemma InsertKeepsOrder(s: seq<ScoredDevice>, k: nat, x: ScoredDevice)
    requires Descending(s) && k <= |s|
    requires (k > 0 ==> s[k - 1].total >= x.total) && (k < |s| ==> s[k].total <= x.total)
    ensures Descending(Insert(s, k, x))
  {
    hide Insert;
    var t := Insert(s, k, x);
    InsertAt(s, k, x, k);
    forall i, j | 0 <= i < j < |t| ensures t[i].total >= t[j].total {
      InsertAt(s, k, x, i);
      InsertAt(s, k, x, j);
    }
  }

  function CostOf(costs: map<string, real>, id: string): real {
    if id in costs then costs[id] else 0.0
  }

  datatype Options = Options(strategy: string, recipientCountry: string, maxResults: int,
                             excludeBlocked: bool, excludeDegraded: bool, requireOnline: bool)

  function BaseOf(d: Device, opts: Options, costs: map<string, real>): real {
    BaseScore(d, StrategyFor(opts.strategy), CostOf(costs, d.id), opts.recipientCountry)
  }

  ghost predicate IsScoreOf(s: ScoredDevice, d: Device, opts: Options, costs: map<string, real>, u: real) {
    s.device == d && s.total == Total(BaseOf(d, opts, costs), u)
  }

  ghost predicate AreScoresOf(all: seq<ScoredDevice>, devices: seq<Device>, opts: Options, costs: map<string, real>,
                              draws: seq<real>) {
    |all| == |devices| <= |draws| && forall i :: 0 <= i < |all| ==> IsScoreOf(all[i], devices[i], opts, costs, draws[i])
  }

  method SelectDevices(devices: seq<Device>, opts: Options, costs: map<string, real>, draws: seq<real>)
    returns (top: seq<ScoredDevice>, ghost all: seq<ScoredDevice>, ghost rest: seq<ScoredDevice>)
    requires opts.maxResults >= 0 && |devices| <= |draws|
    ensures AreScoresOf(all, devices, opts, costs, draws) && BestOf(all, top, rest)
    ensures |top| == Min(opts.maxResults, |devices|)
  {
    var scored: seq<ScoredDevice> := [];
    for i := 0 to |devices|
      invariant AreScoresOf(scored, devices[..i], opts, costs, draws)
    {
      var d := devices[i];
      var s := ScoreDevice(d, opts.strategy, CostOf(costs, d.id), opts.recipientCountry, draws[i]);
      scored := scored + [s];
    }
    all := scored;
    scored := SortByScore(scored);
    SizesAgree(all, scored);
    top := scored;
    if |scored| > opts.maxResults {
      top := scored[..opts.maxResults];
    }
    rest := scored[|top|..];
    assert scored == top + rest;
  }

  lemma SizesAgree<T>(a: seq<T>, b: seq<T>)
    requires multiset(a) == multiset(b)
    ensures |a| == |b|
  {
    assert |multiset(a)| == |a| && |multiset(b)| == |b|;
  }

  predicate Eligible(d: Device, opts: Options) {
    && (opts.requireOnline ==> d.status == Online)
    && (opts.excludeBlocked ==> d.simHealth != Blocked)
    && (opts.excludeDegraded ==> d.simHealth != Degraded)
  }

  function EligibleOf(devices: seq<Device>, opts: Options): (r: seq<Device>)
    ensures |r| <= |devices|
    ensures forall d :: d in r <==> d in devices && Eligible(d, opts)
  {
    if devices == [] then []
    else
      var last := devices[|devices| - 1];
      EligibleOf(devices[..|devices| - 1], opts) + (if Eligible(last, opts) then [last] else [])
  }

  /** The best eligible devices, as many as allowed, in descending score. */
  method FilterAndScore(devices: seq<Device>, opts: Options, costs: map<string, real>, draws: seq<real>)
    returns (top: seq<ScoredDevice>, ghost all: seq<ScoredDevice>, ghost rest: seq<ScoredDevice>)
    requires opts.maxResults >= 0 && |devices| <= |draws|
    ensures AreScoresOf(all, EligibleOf(devices, opts), opts, costs, draws) && BestOf(all, top, rest)
    ensures |top| == Min(opts.maxResults, |EligibleOf(devices, opts)|)
    ensures forall d :: d in EligibleOf(devices, opts) <==>
      && d in devices && (opts.requireOnline ==> d.status == Online)
      && (opts.excludeBlocked ==> d.simHealth != Blocked) && (opts.excludeDegraded ==> d.simHealth != Degraded)
    ensures forall i :: 0 <= i < |top| ==> top[i].device in devices && Eligible(top[i].device, opts)
  {
    hide BestOf, AreScoresOf, EligibleOf;
    var eligible: seq<Device> := [];
    NoneEligible(opts);
    for i := 0 to |devices|
      invariant eligible == EligibleOf(devices[..i], opts)
    {
      var d := devices[i];
      NextEligible(devices, i, opts);
      if opts.requireOnline && d.status != Online {
        continue;
      }
      if opts.excludeBlocked && d.simHealth == Blocked {
        continue;
      }
      if opts.excludeDegraded && d.simHealth == Degraded {
        continue;
      }
      eligible := eligible + [d];
    }
    assert devices[..|devices|] == devices;
    if |eligible| == 0 {
      NothingToScore(opts, costs, draws);
      return [], [], [];
    }
    top, all, rest := SelectDevices(eligible, opts, costs, draws);
    TopIsFromDevices(all, top, rest, eligible, opts, costs, draws);
  }

  lemma NoneEligible(opts: Options)
    ensures EligibleOf([], opts) == []
  {
  }

  lemma NextEligible(devices: seq<Device>, i: nat, opts: Options)
    requires i < |devices|
    ensures EligibleOf(devices[..i + 1], opts)
         == EligibleOf(devices[..i], opts) + if Eligible(devices[i], opts) then [devices[i]] else []
  {
    hide Eligible;
    assert devices[..i + 1][..i] == devices[..i];
  }

  lemma NothingToScore(opts: Options, costs: map<string, real>, draws: seq<real>)
    ensures AreScoresOf([], [], opts, costs, draws) && BestOf([], [], [])
  {
  }

  lemma TopIsFromDevices(all: seq<ScoredDevice>, top: seq<ScoredDevice>, rest: seq<ScoredDevice>,
                         devices: seq<Device>, opts: Options, costs: map<string, real>, draws: seq<real>)
    requires AreScoresOf(all, devices, opts, costs, draws) && BestOf(all, top, rest)
    ensures forall i :: 0 <= i < |top| ==> top[i].device in devices
  {
    forall i | 0 <= i < |top| ensures top[i].device in devices {
      ComesFrom(all, top, rest, top[i]);
      var k :| 0 <= k < |all| && all[k] == top[i];
      assert IsScoreOf(all[k], devices[k], opts, costs, draws[k]);
    }
  }

  lemma ComesFrom(all: seq<ScoredDevice>, top: seq<ScoredDevice>, rest: seq<ScoredDevice>, x: ScoredDevice)
    requires multiset(top) + multiset(rest) == multiset(all) && (x in top || x in rest)
    ensures exists k :: 0 <= k < |all| && all[k] == x
  {
    assert x in multiset(top) + multiset(rest);
    assert x in multiset(all);
  }

  lemma HasBase(all: seq<ScoredDevice>, devices: seq<Device>, opts: Options, costs: map<string, real>,
                draws: seq<real>, x: ScoredDevice)
    returns (u: real)
    requires AreScoresOf(all, devices, opts, costs, draws) && x in all
    requires forall i :: 0 <= i < |draws| ==> Draw(draws[i])
    ensures Draw(u) && x.total == Total(BaseOf(x.device, opts, costs), u)
  {
    var k :| 0 <= k < |all| && all[k] == x;
    assert IsScoreOf(all[k], devices[k], opts, costs, draws[k]);
    u := draws[k];
  }

  /** Whatever is drawn, a device is never placed above, or chosen instead of, one whose base score is
      at least 21/19 of its own. */
  lemma ClearlyBetterComesFirst(all: seq<ScoredDevice>, top: seq<ScoredDevice>, rest: seq<ScoredDevice>,
                                devices: seq<Device>, opts: Options, costs: map<string, real>, draws: seq<real>,
                                better: ScoredDevice, worse: ScoredDevice)
    requires AreScoresOf(all, devices, opts, costs, draws) && BestOf(all, top, rest)
    requires forall i :: 0 <= i < |draws| ==> Draw(draws[i])
    requires better in all && worse in all && InRange(worse.device, CostOf(costs, worse.device.id))
    requires 21.0 * BaseOf(worse.device, opts, costs) <= 19.0 * BaseOf(better.device, opts, costs)
    ensures forall i :: 0 <= i < |top| && top[i] == worse ==> better !in rest
    ensures forall i, j :: 0 <= i < |top| && 0 <= j < |top| && top[i] == worse && top[j] == better ==> j < i
  {
    hide BaseOf, Total, BestOf;
    var u := HasBase(all, devices, opts, costs, draws, better);
    var v := HasBase(all, devices, opts, costs, draws, worse);
    PositiveBase(worse.device, opts, costs);
    Separated(BaseOf(better.device, opts, costs), BaseOf(worse.device, opts, costs), u, v);
    assert better.total > worse.total;
    BestIsAbove(all, top, rest, better, worse);
  }

  lemma BestIsAbove(all: seq<ScoredDevice>, top: seq<ScoredDevice>, rest: seq<ScoredDevice>, better: ScoredDevice,
                    worse: ScoredDevice)
    requires BestOf(all, top, rest) && better.total > worse.total
    ensures forall i :: 0 <= i < |top| && top[i] == worse ==> better !in rest
    ensures forall i, j :: 0 <= i < |top| && 0 <= j < |top| && top[i] == worse && top[j] == better ==> j < i
  {
  }

  lemma PositiveBase(d: Device, opts: Options, costs: map<string, real>)
    requires InRange(d, CostOf(costs, d.id))
    ensures BaseOf(d, opts, costs) > 0.0
  {
    BaseScoreInRange(d, opts.strategy, CostOf(costs, d.id), opts.recipientCountry);
  }
}
