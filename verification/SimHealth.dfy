/** Per-device delivery history, pruned in place, and the health verdicts read from it. */
module SimHealth {
  import opened Common
  import Trend

  datatype Status = Healthy | Degraded | Blocked | Other(name: string)

  datatype Sample = Sample(at: int, success: bool)

  datatype Config = Config(degradedBelow: real, blockedBelow: real, window: int, trendWindow: int)

  type Histories = map<string, seq<Sample>>

  function Of(h: Histories, device: string): seq<Sample> {
    if device in h then h[device] else []
  }

  /** The samples later than the cutoff, in order. */
  function After(s: seq<Sample>, cutoff: int): seq<Sample> {
    if s == [] then []
    else After(s[..|s| - 1], cutoff) + if s[|s| - 1].at > cutoff then [s[|s| - 1]] else []
  }

  function Successes(s: seq<Sample>): nat {
    if s == [] then 0 else Successes(s[..|s| - 1]) + if s[|s| - 1].success then 1 else 0
  }

  /** An empty window counts as fully successful. */
  function Rate(s: seq<Sample>): real {
    if s == [] then 1.0 else Successes(s) as real / |s| as real
  }

  function Outcomes(s: seq<Sample>): seq<bool> {
    seq(|s|, i requires 0 <= i < |s| => s[i].success)
  }

  function TrendSlope(s: seq<Sample>): real {
    if |s| < 10 then 0.0 else Trend.Slope(Trend.Recent(Outcomes(s)))
  }

  /** How many samples are later than the cutoff, and how many of them successful. */
  function Later(s: seq<Sample>, cutoff: int): nat {
    CountWhere(s, (x: Sample) => x.at > cutoff)
  }

  function LaterGood(s: seq<Sample>, cutoff: int): nat {
    CountWhere(s, (x: Sample) => x.at > cutoff && x.success)
  }

  lemma SuccessesNext(front: seq<Sample>, x: Sample)
    ensures Successes(front + [x]) == Successes(front) + if x.success then 1 else 0
  {
    assert (front + [x])[..|front|] == front;
  }

  lemma {:induction false} AfterCounts(s: seq<Sample>, cutoff: int)
    ensures |After(s, cutoff)| == Later(s, cutoff)
    ensures Successes(After(s, cutoff)) == LaterGood(s, cutoff) <= Later(s, cutoff)
  {
    if s != [] {
      hide Successes;
      var front, x := s[..|s| - 1], s[|s| - 1];
      AfterCounts(front, cutoff);
      if x.at > cutoff {
        SuccessesNext(After(front, cutoff), x);
      } else {
        assert After(s, cutoff) == After(front, cutoff);
      }
    }
  }

  /** The verdict over the `n` samples of the window, `k` of them successful: blocked or degraded when too few
      succeeded, as it was otherwise. A window without samples counts as one fully successful sample. */
  predicate IsVerdict(c: Config, n: nat, k: nat, current: Status, status: Status) {
    var (total, good) := if n == 0 then (1, 1) else (n, k);
    && (good as real < c.blockedBelow * total as real ==> status == Blocked)
    && (good as real >= c.blockedBelow * total as real ==>
          && (good as real < c.degradedBelow * total as real ==> status == Degraded)
          && (good as real >= c.degradedBelow * total as real ==> status == current))
  }

  lemma RateBelow(k: nat, n: nat, limit: real)
    requires n > 0
    ensures k as real / n as real < limit <==> (k as real) < limit * n as real
  {
    var rate, t := k as real / n as real, n as real;
    assert rate * t == k as real;
    RatesCompare(rate, limit, t);
  }

  lemma RatesCompare(x: real, y: real, t: real)
    requires t > 0.0
    ensures x < y <==> x * t < y * t
  {
    if x < y {
      assert (y - x) * t > 0.0;
    } else {
      assert (x - y) * t >= 0.0;
    }
  }

  lemma VerdictIs(c: Config, s: seq<Sample>, cutoff: int, current: Status)
    ensures IsVerdict(c, Later(s, cutoff), LaterGood(s, cutoff), current,
                      Verdict(c, Rate(After(s, cutoff)), current))
  {
    AfterCounts(s, cutoff);
    hide After, Later, LaterGood, Successes;
    CountsDecide(c, After(s, cutoff), current);
  }

  lemma CountsDecide(c: Config, s: seq<Sample>, current: Status)
    requires Successes(s) <= |s|
    ensures IsVerdict(c, |s|, Successes(s), current, Verdict(c, Rate(s), current))
  {
    if s == [] {
      LimitsDecide(c, 1, 1, 1.0, 0, 0, current);
    } else {
      LimitsDecide(c, |s|, Successes(s), Rate(s), |s|, Successes(s), current);
    }
  }

  lemma LimitsDecide(c: Config, total: nat, good: nat, rate: real, n: nat, k: nat, current: Status)
    requires total > 0 && rate == good as real / total as real && (total, good) == if n == 0 then (1, 1) else (n, k)
    ensures IsVerdict(c, n, k, current, Verdict(c, rate, current))
  {
    RateBelow(good, total, c.blockedBelow);
    RateBelow(good, total, c.degradedBelow);
    var blocked, degraded := c.blockedBelow * total as real, c.degradedBelow * total as real;
  }

  predicate AllLater(s: seq<Sample>, cutoff: int) {
    forall i :: 0 <= i < |s| ==> s[i].at > cutoff
  }

  lemma {:induction false} AfterSplit(gone: seq<Sample>, kept: seq<Sample>, cutoff: int)
    requires By(gone, cutoff) && AllLater(kept, cutoff)
    ensures After(gone + kept, cutoff) == kept
  {
    var s := gone + kept;
    if kept != [] {
      assert s[..|s| - 1] == gone + kept[..|kept| - 1];
      AfterSplit(gone, kept[..|kept| - 1], cutoff);
    } else {
      assert s == gone;
      AfterNow(gone, cutoff);
    }
  }

  /** Fewer than ten samples show no trend; of more than twenty only the last twenty count. */
  lemma TrendMeans(before: seq<Sample>, s: seq<Sample>)
    ensures |s| < 10 ==> TrendSlope(s) == 0.0
    ensures 10 <= |s| <= 20 ==> TrendSlope(s) == Trend.Slope(Outcomes(s))
    ensures |s| == 20 ==> TrendSlope(before + s) == TrendSlope(s)
  {
    hide Trend.Slope;
    if 10 <= |s| <= 20 {
      assert Trend.Recent(Outcomes(s)) == Outcomes(s);
    }
    if |s| == 20 {
      assert Trend.Recent(Outcomes(before + s)) == Outcomes(s);
    }
  }

  /** A verdict can only get worse: nothing here leads back to `Healthy`. */
  function Verdict(c: Config, rate: real, current: Status): (s: Status)
    ensures s == Healthy ==> current == Healthy && rate >= c.blockedBelow && rate >= c.degradedBelow
    ensures s != current ==> s == Blocked || s == Degraded
  {
    if rate < c.blockedBelow then Blocked else if rate < c.degradedBelow then Degraded else current
  }

  class Engine {
    var deliveryHistory: Histories
    const cfg: Config

    constructor (cfg: Config)
      ensures deliveryHistory == map[] && this.cfg == cfg
    {
      this.cfg := cfg;
      deliveryHistory := map[];
    }

    method RecordDelivery(device: string, success: bool, now: int)
      modifies this
      ensures device in deliveryHistory && deliveryHistory[device] != []
      ensures var n := |deliveryHistory[device]| - 1;
        && deliveryHistory[device][n] == Sample(now, success)
        && deliveryHistory[device][..n] == if device in old(deliveryHistory) then old(deliveryHistory)[device] else []
      ensures deliveryHistory - {device} == old(deliveryHistory) - {device}
      ensures deliveryHistory == Apply(cfg, old(deliveryHistory), Record(device, success, now), true)
    {
      var samples := if device in deliveryHistory then deliveryHistory[device] else [];
      deliveryHistory := deliveryHistory[device := samples + [Sample(now, success)]];
    }

    method FilterByDuration(samples: seq<Sample>, duration: int, now: int) returns (filtered: seq<Sample>)
      ensures filtered == After(samples, now - duration)
    {
      var cutoff := now - duration;
      filtered := [];
      for i := 0 to |samples|
        invariant filtered == After(samples[..i], cutoff)
      {
        if samples[i].at > cutoff {
          filtered := filtered + [samples[i]];
        }
        assert samples[..i + 1][..i] == samples[..i];
      }
      assert samples[..|samples|] == samples;
    }

    method CalculateRate(samples: seq<Sample>) returns (rate: real)
      ensures rate == Rate(samples)
    {
      if |samples| == 0 {
        return 1.0;
      }
      var successes := 0;
      for i := 0 to |samples|
        invariant successes == Successes(samples[..i])
      {
        if samples[i].success {
          successes := successes + 1;
        }
        assert samples[..i + 1][..i] == samples[..i];
      }
      assert samples[..|samples|] == samples;
      rate := successes as real / |samples| as real;
    }

    /** The clock is read once per window. */
    method EvaluateDevice(device: string, current: Status, now1: int, now2: int) returns (status: Status, slope: real)
      ensures var samples := if device in deliveryHistory then deliveryHistory[device] else [];
        var cutoff := now1 - cfg.window;
        IsVerdict(cfg, Later(samples, cutoff), LaterGood(samples, cutoff), current, status)
      ensures forall gone, kept ::
        device in deliveryHistory && deliveryHistory[device] == gone + kept
        && By(gone, now2 - cfg.trendWindow) && AllLater(kept, now2 - cfg.trendWindow) ==>
          slope == TrendSlope(kept)
      ensures Answer(cfg, deliveryHistory, Evaluate(device, current, now1, now2)) == Judged(status, slope)
    {
      hide After, Trend.Slope, Trend.Recent;
      var samples := if device in deliveryHistory then deliveryHistory[device] else [];
      var recentSamples := FilterByDuration(samples, cfg.window, now1);
      var trendSamples := FilterByDuration(samples, cfg.trendWindow, now2);
      var shortRate := CalculateRate(recentSamples);
      slope := Trend.CalculateTrend(Outcomes(trendSamples));
      status := current;
      if shortRate < cfg.blockedBelow {
        status := Blocked;
      } else if shortRate < cfg.degradedBelow {
        status := Degraded;
      }
      VerdictIs(cfg, samples, now1 - cfg.window, current);
      forall gone, kept | samples == gone + kept && By(gone, now2 - cfg.trendWindow)
                          && AllLater(kept, now2 - cfg.trendWindow)
        ensures slope == TrendSlope(kept)
      {
        AfterSplit(gone, kept, now2 - cfg.trendWindow);
      }
    }

    method GetDeliveryRate(device: string, now: int) returns (rate: real, count: int)
      ensures var samples := if device in deliveryHistory then deliveryHistory[device] else [];
        var cutoff := now - cfg.window;
        && count == Later(samples, cutoff) && rate * count as real == LaterGood(samples, cutoff) as real
        && (count == 0 ==> rate == 0.0)
      ensures Answer(cfg, deliveryHistory, GetRate(device, now)) == Measured(rate, count)
    {
      hide After, Later, LaterGood;
      var history := if device in deliveryHistory then deliveryHistory[device] else [];
      var samples := FilterByDuration(history, cfg.window, now);
      AfterCounts(history, now - cfg.window);
      if |samples| == 0 {
        return 0.0, 0;
      }
      rate := CalculateRate(samples);
      count := |samples|;
    }

    /** Every history loses its samples outside the trend window; an emptied one is deleted. */
    method Cleanup(now: int)
      modifies this
      ensures forall d :: d in deliveryHistory ==> deliveryHistory[d] != []
      ensures deliveryHistory == Pruned(old(deliveryHistory), now - cfg.trendWindow)
    {
      hide After;
      var before := deliveryHistory;
      var todo := before.Keys;
      while todo != {}
        invariant todo <= before.Keys
        invariant forall d :: d in todo ==> d in deliveryHistory && deliveryHistory[d] == before[d]
        invariant forall d :: d in before.Keys - todo ==>
          (d in deliveryHistory <==> After(before[d], now - cfg.trendWindow) != [])
        invariant forall d :: d in deliveryHistory ==> d in before
        invariant forall d :: d in deliveryHistory && d !in todo ==>
          deliveryHistory[d] == After(before[d], now - cfg.trendWindow)
        decreases |todo|
      {
        var device :| device in todo;
        var filtered := FilterByDuration(deliveryHistory[device], cfg.trendWindow, now);
        if |filtered| == 0 {
          deliveryHistory := deliveryHistory - {device};
        } else {
          deliveryHistory := deliveryHistory[device := filtered];
        }
        todo := todo - {device};
      }
    }
  }

  function Pruned(h: Histories, cutoff: int): Histories {
    map d | d in h && After(h[d], cutoff) != [] :: After(h[d], cutoff)
  }

  // ---- whole runs ----

  datatype Op =
    | Record(device: string, success: bool, at: int)
    | Evaluate(device: string, current: Status, t1: int, t2: int)
    | GetRate(device: string, t: int)
    | Cleanup(t: int)

  datatype Reply = Nothing | Judged(status: Status, slope: real) | Measured(rate: real, count: int)

  /** The histories after an operation; with `prune` off, cleaning up does nothing. */
  function Apply(c: Config, h: Histories, op: Op, prune: bool): Histories {
    match op
    case Record(d, success, t) => h[d := Of(h, d) + [Sample(t, success)]]
    case Cleanup(t) => if prune then Pruned(h, t - c.trendWindow) else h
    case _ => h
  }

  function Answer(c: Config, h: Histories, op: Op): Reply {
    match op
    case Evaluate(d, current, t1, t2) =>
      Judged(Verdict(c, Rate(After(Of(h, d), t1 - c.window)), current), TrendSlope(After(Of(h, d), t2 - c.trendWindow)))
    case GetRate(d, t) =>
      var samples := After(Of(h, d), t - c.window);
      if samples == [] then Measured(0.0, 0) else Measured(Rate(samples), |samples|)
    case _ => Nothing
  }

  function Replies(c: Config, h: Histories, ops: seq<Op>, prune: bool): seq<Reply>
    decreases |ops|
  {
    if ops == [] then []
    else [Answer(c, h, ops[0])] + Replies(c, Apply(c, h, ops[0], prune), ops[1..], prune)
  }

  function FirstReading(op: Op): int {
    match op case Record(_, _, t) => t case Evaluate(_, _, t, _) => t case GetRate(_, t) => t case Cleanup(t) => t
  }

  function LastReading(op: Op): int {
    if op.Evaluate? then op.t2 else FirstReading(op)
  }

  /** The clock never goes back. */
  predicate Timed(ops: seq<Op>, now: int)
    decreases |ops|
  {
    ops == [] || (now <= FirstReading(ops[0]) <= LastReading(ops[0]) && Timed(ops[1..], LastReading(ops[0])))
  }

  // ---- filtering ----

  lemma {:induction false} AfterAppend(s: seq<Sample>, x: Sample, cutoff: int)
    ensures After(s + [x], cutoff) == After(s, cutoff) + if x.at > cutoff then [x] else []
  {
    assert (s + [x])[..|s|] == s;
  }

  lemma {:induction false} AfterTwice(s: seq<Sample>, first: int, second: int)
    requires first <= second
    ensures After(After(s, first), second) == After(s, second)
  {
    if s != [] {
      var last := s[|s| - 1];
      AfterTwice(s[..|s| - 1], first, second);
      if last.at > first {
        AfterAppend(After(s[..|s| - 1], first), last, second);
      } else {
        assert After(s, first) == After(s[..|s| - 1], first);
      }
    }
  }

  /** The pruned and the full histories agree on everything inside the trend window. */
  ghost predicate Agree(c: Config, p: Histories, f: Histories, now: int) {
    forall d :: After(Of(p, d), now - c.trendWindow) == After(Of(f, d), now - c.trendWindow)
  }

  lemma AgreeLater(c: Config, p: Histories, f: Histories, now: int, d: string, cutoff: int)
    requires Agree(c, p, f, now) && now - c.trendWindow <= cutoff
    ensures After(Of(p, d), cutoff) == After(Of(f, d), cutoff)
  {
    assert After(Of(p, d), now - c.trendWindow) == After(Of(f, d), now - c.trendWindow);
    AfterTwice(Of(p, d), now - c.trendWindow, cutoff);
    AfterTwice(Of(f, d), now - c.trendWindow, cutoff);
  }

  lemma OfPruned(h: Histories, cutoff: int, d: string)
    ensures Of(Pruned(h, cutoff), d) == After(Of(h, d), cutoff)
  {
  }

  /** One device's history after an operation. */
  lemma OfApply(c: Config, h: Histories, op: Op, prune: bool, d: string)
    ensures Of(Apply(c, h, op, prune), d)
            == if op.Record? && d == op.device then Of(h, d) + [Sample(op.at, op.success)]
               else if op.Cleanup? && prune then After(Of(h, d), op.t - c.trendWindow)
               else Of(h, d)
  {
    hide After, Pruned;
    if op.Cleanup? && prune {
      OfPruned(h, op.t - c.trendWindow, d);
    }
  }

  lemma StepAgreesOn(c: Config, p: Histories, f: Histories, now: int, op: Op, d: string)
    requires Agree(c, p, f, now) && now <= FirstReading(op) <= LastReading(op)
    ensures var cutoff := LastReading(op) - c.trendWindow;
      After(Of(Apply(c, p, op, true), d), cutoff) == After(Of(Apply(c, f, op, false), d), cutoff)
  {
    hide Agree, Apply, After, Of;
    var cutoff := LastReading(op) - c.trendWindow;
    AgreeLater(c, p, f, now, d, cutoff);
    OfApply(c, p, op, true, d);
    OfApply(c, f, op, false, d);
    if op.Record? && d == op.device {
      var x := Sample(op.at, op.success);
      AfterAppend(Of(p, d), x, cutoff);
      AfterAppend(Of(f, d), x, cutoff);
    } else if op.Cleanup? {
      AfterTwice(Of(p, d), cutoff, cutoff);
    }
  }

  lemma StepAgrees(c: Config, p: Histories, f: Histories, now: int, op: Op)
    requires Agree(c, p, f, now) && now <= FirstReading(op) <= LastReading(op)
    ensures Agree(c, Apply(c, p, op, true), Apply(c, f, op, false), LastReading(op))
  {
    hide Agree, Apply;
    forall d ensures var cutoff := LastReading(op) - c.trendWindow;
      After(Of(Apply(c, p, op, true), d), cutoff) == After(Of(Apply(c, f, op, false), d), cutoff)
    {
      StepAgreesOn(c, p, f, now, op, d);
    }
    AgreeFrom(c, Apply(c, p, op, true), Apply(c, f, op, false), LastReading(op));
  }

  lemma AgreeFrom(c: Config, p: Histories, f: Histories, now: int)
    requires forall d :: After(Of(p, d), now - c.trendWindow) == After(Of(f, d), now - c.trendWindow)
    ensures Agree(c, p, f, now)
  {
  }

  ghost predicate By(s: seq<Sample>, now: int) {
    forall i :: 0 <= i < |s| ==> s[i].at <= now
  }

  ghost predicate NotInFuture(h: Histories, now: int) {
    forall d :: By(Of(h, d), now)
  }

  lemma {:induction false} AfterNow(s: seq<Sample>, cutoff: int)
    requires By(s, cutoff)
    ensures After(s, cutoff) == []
  {
    if s != [] {
      AfterNow(s[..|s| - 1], cutoff);
    }
  }

  lemma {:induction false} AfterBy(s: seq<Sample>, cutoff: int, now: int)
    requires By(s, now)
    ensures By(After(s, cutoff), now)
  {
    if s != [] {
      AfterBy(s[..|s| - 1], cutoff, now);
    }
  }

  lemma StepNotInFuture(c: Config, h: Histories, now: int, op: Op, prune: bool)
    requires NotInFuture(h, now) && now <= FirstReading(op) <= LastReading(op)
    ensures NotInFuture(Apply(c, h, op, prune), LastReading(op))
  {
    var t := Apply(c, h, op, prune);
    forall d ensures By(Of(t, d), LastReading(op)) {
      assert By(Of(h, d), now);
      if op.Cleanup? && prune {
        OfPruned(h, op.t - c.trendWindow, d);
        AfterBy(Of(h, d), op.t - c.trendWindow, now);
      }
    }
  }

  /** The reading window never looks further back than the trend window, or looks at nothing. */
  predicate WindowCovered(c: Config) {
    c.window <= c.trendWindow || c.window <= 0
  }

  lemma SameReading(c: Config, p: Histories, f: Histories, now: int, d: string, t: int)
    requires WindowCovered(c) && Agree(c, p, f, now) && NotInFuture(p, now) && NotInFuture(f, now) && now <= t
    ensures After(Of(p, d), t - c.window) == After(Of(f, d), t - c.window)
  {
    hide Agree, After;
    if c.window <= c.trendWindow {
      AgreeLater(c, p, f, now, d, t - c.window);
    } else {
      assert By(Of(p, d), now) && By(Of(f, d), now);
      AfterNow(Of(p, d), t - c.window);
      AfterNow(Of(f, d), t - c.window);
    }
  }

  lemma SameAnswer(c: Config, p: Histories, f: Histories, now: int, op: Op)
    requires WindowCovered(c) && Agree(c, p, f, now) && NotInFuture(p, now) && NotInFuture(f, now)
    requires now <= FirstReading(op) <= LastReading(op)
    ensures Answer(c, p, op) == Answer(c, f, op)
  {
    hide Agree, After, NotInFuture, Of, Rate, TrendSlope;
    match op
    case Evaluate(d, _, t1, t2) =>
      SameReading(c, p, f, now, d, t1);
      AgreeLater(c, p, f, now, d, t2 - c.trendWindow);
    case GetRate(d, t) => SameReading(c, p, f, now, d, t);
    case _ =>
  }

  lemma {:induction false} RunsAgree(c: Config, p: Histories, f: Histories, now: int, ops: seq<Op>)
    requires WindowCovered(c) && Agree(c, p, f, now) && NotInFuture(p, now) && NotInFuture(f, now) && Timed(ops, now)
    ensures Replies(c, p, ops, true) == Replies(c, f, ops, false)
    decreases |ops|
  {
    if ops != [] {
      var op := ops[0];
      SameAnswer(c, p, f, now, op);
      StepAgrees(c, p, f, now, op);
      StepNotInFuture(c, p, now, op, true);
      StepNotInFuture(c, f, now, op, false);
      RunsAgree(c, Apply(c, p, op, true), Apply(c, f, op, false), LastReading(op), ops[1..]);
    }
  }

  ghost predicate CleanupInvisible(c: Config) {
    forall ops, now :: Timed(ops, now) ==> Replies(c, map[], ops, true) == Replies(c, map[], ops, false)
  }

  /** One recorded failure, forgotten just before it would leave the reading window. */
  lemma ForgottenSample(c: Config)
    requires c.trendWindow < c.window && 0 < c.window
    ensures !CleanupInvisible(c)
  {
    var t := c.window - 1;
    var ops := [Record("d", false, 0), Cleanup(t), GetRate("d", t)];
    TimedThree(ops[0], ops[1], ops[2], 0);
    var x := Sample(0, false);
    var h := map["d" := [x]];
    assert Of(map[], "d") + [x] == [x];
    AfterAppend([], x, t - c.trendWindow);
    AfterAppend([], x, t - c.window);
    assert Apply(c, h, ops[1], true) == map[];
    RepliesThree(c, ops[0], ops[1], ops[2], true);
    RepliesThree(c, ops[0], ops[1], ops[2], false);
    assert Answer(c, map[], ops[2]) == Measured(0.0, 0);
    assert After(Of(h, "d"), t - c.window) == [x];
    assert Answer(c, h, ops[2]).count == 1;
  }

  lemma TimedThree(a: Op, b: Op, d: Op, now: int)
    requires now <= FirstReading(a) <= LastReading(a) <= FirstReading(b)
    requires FirstReading(b) <= LastReading(b) <= FirstReading(d) <= LastReading(d)
    ensures Timed([a, b, d], now)
  {
    assert [a, b, d][1..] == [b, d] && [b, d][1..] == [d] && [d][1..] == [];
    assert Timed([], LastReading(d));
    assert Timed([d], LastReading(b));
    assert Timed([b, d], LastReading(a));
  }

  lemma RepliesThree(c: Config, a: Op, b: Op, d: Op, prune: bool)
    ensures var r := Replies(c, map[], [a, b, d], prune);
      |r| == 3 && r[2] == Answer(c, Apply(c, Apply(c, map[], a, prune), b, prune), d)
  {
    hide Answer, Apply;
    var h1 := Apply(c, map[], a, prune);
    var h2 := Apply(c, h1, b, prune);
    assert [a, b, d][1..] == [b, d] && [b, d][1..] == [d] && [d][1..] == [];
    assert Replies(c, h2, [d], prune) == [Answer(c, h2, d)] + Replies(c, Apply(c, h2, d, prune), [], prune);
    assert Replies(c, h1, [b, d], prune) == [Answer(c, h1, b)] + Replies(c, h2, [d], prune);
    assert Replies(c, map[], [a, b, d], prune) == [Answer(c, map[], a)] + Replies(c, h1, [b, d], prune);
  }

  /** The exact condition: cleaning up, inserted anywhere in any run with a clock that never goes back,
      changes no later answer if and only if the reading window is no longer than the trend window or
      is empty. */
  lemma CleanupInvisibleIff(c: Config)
    ensures CleanupInvisible(c) <==> WindowCovered(c)
  {
    if WindowCovered(c) {
      forall ops, now | Timed(ops, now)
        ensures Replies(c, map[], ops, true) == Replies(c, map[], ops, false)
      {
        RunsAgree(c, map[], map[], now, ops);
      }
    } else {
      ForgottenSample(c);
    }
  }

  // ---- time-sorted histories ----

  ghost predicate Sorted(s: seq<Sample>) {
    forall i, j :: 0 <= i < j < |s| ==> s[i].at <= s[j].at
  }

  /** Filtering a time-sorted history yields a suffix of it. */
  lemma {:induction false} AfterIsSuffix(s: seq<Sample>, cutoff: int) returns (k: nat)
    requires Sorted(s)
    ensures k <= |s| && After(s, cutoff) == s[k..]
    ensures forall i :: 0 <= i < |s| ==> (s[i].at > cutoff <==> k <= i)
  {
    if s == [] {
      k := 0;
    } else {
      var front := s[..|s| - 1];
      assert Sorted(front);
      k := AfterIsSuffix(front, cutoff);
      if s[|s| - 1].at > cutoff {
        assert s[k..] == front[k..] + [s[|s| - 1]];
      } else {
        forall i | 0 <= i < |s| ensures s[i].at <= cutoff {
          assert s[i].at <= s[|s| - 1].at;
        }
        k := |s|;
        AfterNow(s, cutoff);
      }
    }
  }

  function Final(c: Config, h: Histories, ops: seq<Op>): Histories
    decreases |ops|
  {
    if ops == [] then h else Final(c, Apply(c, h, ops[0], true), ops[1..])
  }

  ghost predicate AllSorted(h: Histories) {
    forall d :: Sorted(Of(h, d))
  }

  lemma StepSorted(c: Config, h: Histories, now: int, op: Op, d: string)
    requires Sorted(Of(h, d)) && By(Of(h, d), now) && now <= FirstReading(op) <= LastReading(op)
    ensures Sorted(Of(Apply(c, h, op, true), d))
  {
    hide After, Of, Apply;
    OfApply(c, h, op, true, d);
    if op.Cleanup? {
      var k := AfterIsSuffix(Of(h, d), op.t - c.trendWindow);
    }
  }

  /** Under a clock that never goes back every stored history is time-sorted, cleaned up or not. */
  lemma {:induction false} HistoriesStaySorted(c: Config, h: Histories, now: int, ops: seq<Op>)
    requires AllSorted(h) && NotInFuture(h, now) && Timed(ops, now)
    ensures AllSorted(Final(c, h, ops))
    decreases |ops|
  {
    if ops != [] {
      hide After, Of, Apply, Sorted, By;
      var op := ops[0];
      var t := Apply(c, h, op, true);
      StepNotInFuture(c, h, now, op, true);
      forall d ensures Sorted(Of(t, d)) {
        StepSorted(c, h, now, op, d);
      }
      HistoriesStaySorted(c, t, LastReading(op), ops[1..]);
    }
  }
}
