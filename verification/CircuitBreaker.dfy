/** Per-key circuit breakers: a failure-rate threshold, a cooldown deadline and a half-open trial. */
module CircuitBreaker {
  import opened Common

  datatype Phase = Closed | Open | HalfOpen

  datatype Record = Record(state: Phase, failures: nat, successes: nat, trials: nat, cooldownUntil: int)

  const FRESH := Record(Closed, 0, 0, 0, 0)

  const DEVICE_SCOPE := "device"
  const ACCOUNT_SCOPE := "account"
  const CARRIER_SCOPE := "carrier"

  datatype Config = Config(
    deviceThreshold: real, accountMultiplier: real, carrierThreshold: real,
    deviceCooldown: int, accountCooldown: int, carrierCooldown: int,
    deviceTrials: int)

  function Threshold(c: Config, scope: string): real {
    if scope == DEVICE_SCOPE then c.deviceThreshold
    else if scope == ACCOUNT_SCOPE then c.accountMultiplier * c.deviceThreshold
    else if scope == CARRIER_SCOPE then c.carrierThreshold
    else 0.5
  }

  function Cooldown(c: Config, scope: string): int {
    if scope == DEVICE_SCOPE then c.deviceCooldown
    else if scope == ACCOUNT_SCOPE then c.accountCooldown
    else if scope == CARRIER_SCOPE then c.carrierCooldown
    else 120
  }

  function TrialsNeeded(c: Config, scope: string): int {
    if scope == DEVICE_SCOPE then c.deviceTrials else 3
  }

  function KeyOf(scope: string, value: string): string {
    "cb:" + scope + ":" + value
  }

  // ---- one record ----

  function Rate(failures: nat, successes: nat): real {
    var total := if failures + successes == 0 then 1 else failures + successes;
    failures as real / total as real
  }

  function Fail(c: Config, scope: string, r: Record, now: int): Record {
    var n := r.failures + 1;
    if r.state == HalfOpen then
      r.(failures := n, successes := 0, state := Open, cooldownUntil := now + Cooldown(c, scope))
    else if Rate(n, r.successes) > Threshold(c, scope) then
      r.(failures := n, state := Open, cooldownUntil := now + Cooldown(c, scope))
    else
      r.(failures := n)
  }

  function Succeed(c: Config, scope: string, r: Record): Record {
    if r.state == Open then r
    else if r.state == HalfOpen then
      if r.trials + 1 >= TrialsNeeded(c, scope) then
        r.(state := Closed, failures := 0, successes := 0, trials := 0)
      else
        r.(successes := r.successes + 1, trials := r.trials + 1)
    else r.(successes := r.successes + 1)
  }

  function Query(r: Record, now: int): Record {
    if r.state == Open && now > r.cooldownUntil then r.(state := HalfOpen, trials := 0) else r
  }

  function Lookup(state: map<string, Record>, key: string): Record {
    if key in state then state[key] else FRESH
  }

  class StateManager {
    var state: map<string, Record>
    const cfg: Config

    constructor (cfg: Config)
      ensures state == map[] && this.cfg == cfg
    {
      this.cfg := cfg;
      state := map[];
    }

    method GetOrCreateState(scope: string, value: string) returns (r: Record)
      modifies this
      ensures r == Lookup(old(state), KeyOf(scope, value)) && state == old(state)[KeyOf(scope, value) := r]
    {
      var k := KeyOf(scope, value);
      if k !in state {
        state := state[k := FRESH];
      }
      r := state[k];
      assert state == state[k := r];
    }

    method RecordFailure(scope: string, value: string, now: int)
      modifies this
      ensures var k := KeyOf(scope, value);
        state == old(state)[k := Fail(cfg, scope, Lookup(old(state), k), now)]
    {
      var k := KeyOf(scope, value);
      var r := GetOrCreateState(scope, value);
      r := r.(failures := r.failures + 1);
      if r.state == HalfOpen {
        r := r.(successes := 0, state := Open, cooldownUntil := now + Cooldown(cfg, scope));
      } else {
        var total := r.failures + r.successes;
        if total == 0 {
          total := 1;
        }
        var failureRate := r.failures as real / total as real;
        if failureRate > Threshold(cfg, scope) {
          r := r.(state := Open, cooldownUntil := now + Cooldown(cfg, scope));
        }
      }
      state := state[k := r];
    }

    method RecordSuccess(scope: string, value: string)
      modifies this
      ensures var k := KeyOf(scope, value);
        state == old(state)[k := Succeed(cfg, scope, Lookup(old(state), k))]
    {
      var k := KeyOf(scope, value);
      var r := GetOrCreateState(scope, value);
      if r.state == Open {
        return;
      }
      r := r.(successes := r.successes + 1);
      if r.state == HalfOpen {
        r := r.(trials := r.trials + 1);
        if r.trials >= TrialsNeeded(cfg, scope) {
          r := r.(state := Closed, failures := 0, successes := 0, trials := 0);
        }
      }
      state := state[k := r];
    }

    method GetState(scope: string, value: string, now: int) returns (phase: Phase)
      modifies this
      ensures var k := KeyOf(scope, value);
        state == old(state)[k := Query(Lookup(old(state), k), now)] && phase == state[k].state
    {
      var k := KeyOf(scope, value);
      var r := GetOrCreateState(scope, value);
      if r.state == Open && now > r.cooldownUntil {
        r := r.(state := HalfOpen, trials := 0);
        state := state[k := r];
      }
      phase := r.state;
    }

    method Reset(scope: string, value: string)
      modifies this
      ensures state == old(state) - {KeyOf(scope, value)}
    {
      state := state - {KeyOf(scope, value)};
    }
  }

  // ---- keys ----

  lemma ColonSplit(s1: string, v1: string, s2: string, v2: string)
    requires ':' !in s1 && ':' !in s2 && s1 + ":" + v1 == s2 + ":" + v2
    ensures s1 == s2 && v1 == v2
  {
    var t := s1 + ":" + v1;
    assert t[|s1|] == ':' && t[|s2|] == ':';
    assert forall i :: 0 <= i < |s1| ==> t[i] == s1[i] && s1[i] in s1;
    assert forall i :: 0 <= i < |s2| ==> t[i] == s2[i] && s2[i] in s2;
    assert s1 == t[..|s1|] && s2 == t[..|s2|];
    assert v1 == t[|s1| + 1..] && v2 == t[|s2| + 1..];
  }

  /** Scopes without a colon never let two different pairs share a key. */
  lemma KeysAreDistinct(s1: string, v1: string, s2: string, v2: string)
    requires ':' !in s1 && ':' !in s2
    ensures KeyOf(s1, v1) == KeyOf(s2, v2) <==> s1 == s2 && v1 == v2
  {
    if KeyOf(s1, v1) == KeyOf(s2, v2) {
      assert KeyOf(s1, v1)[3..] == s1 + ":" + v1;
      assert KeyOf(s2, v2)[3..] == s2 + ":" + v2;
      ColonSplit(s1, v1, s2, v2);
    }
  }

  // ---- runs over many keys ----

  datatype Event = Failed(at: int) | Succeeded | Queried(at: int) | Cleared

  datatype Call = Call(scope: string, value: string, event: Event)

  function After(c: Config, scope: string, r: Record, e: Event): Record {
    match e
    case Failed(t) => Fail(c, scope, r, t)
    case Succeeded => Succeed(c, scope, r)
    case Queried(t) => Query(r, t)
    case Cleared => FRESH
  }

  function Fold(c: Config, scope: string, r: Record, events: seq<Event>): Record {
    if events == [] then r
    else After(c, scope, Fold(c, scope, r, events[..|events| - 1]), events[|events| - 1])
  }

  /** What the methods of `StateManager` do, as a function. */
  function Do(c: Config, state: map<string, Record>, call: Call): map<string, Record> {
    var k := KeyOf(call.scope, call.value);
    if call.event.Cleared? then state - {k} else state[k := After(c, call.scope, Lookup(state, k), call.event)]
  }

  function Run(c: Config, state: map<string, Record>, calls: seq<Call>): map<string, Record> {
    if calls == [] then state else Do(c, Run(c, state, calls[..|calls| - 1]), calls[|calls| - 1])
  }

  /** The events of one (scope, value) pair, in order. */
  function Own(calls: seq<Call>, scope: string, value: string): seq<Event> {
    if calls == [] then []
    else
      var last := calls[|calls| - 1];
      var before := Own(calls[..|calls| - 1], scope, value);
      if last.scope == scope && last.value == value then before + [last.event] else before
  }

  /** Over any run of calls on any keys, each pair's record is the fold of that pair's own events. */
  lemma {:induction false} RecordIsFoldOfOwnEvents(c: Config, calls: seq<Call>, scope: string, value: string)
    requires ':' !in scope && forall i :: 0 <= i < |calls| ==> ':' !in calls[i].scope
    ensures Lookup(Run(c, map[], calls), KeyOf(scope, value)) == Fold(c, scope, FRESH, Own(calls, scope, value))
  {
    if calls != [] {
      var front, last := calls[..|calls| - 1], calls[|calls| - 1];
      RecordIsFoldOfOwnEvents(c, front, scope, value);
      KeysAreDistinct(scope, value, last.scope, last.value);
      if last.scope == scope && last.value == value {
        TakeOfAppend(Own(front, scope, value), last.event);
      }
    }
  }

  // ---- what the counters mean ----

  predicate Closing(c: Config, scope: string, r: Record, e: Event) {
    e.Cleared? || (r.state == HalfOpen && After(c, scope, r, e).state == Closed)
  }

  predicate HalfOpening(r: Record, e: Event) {
    r.state == Open && e.Queried? && e.at > r.cooldownUntil
  }

  /** Failures since the last close or reset. */
  function FailuresSinceClose(c: Config, scope: string, events: seq<Event>): nat {
    if events == [] then 0
    else
      var front, e := events[..|events| - 1], events[|events| - 1];
      if Closing(c, scope, Fold(c, scope, FRESH, front), e) then 0
      else FailuresSinceClose(c, scope, front) + if e.Failed? then 1 else 0
  }

  /** Successes since the last half-open entry. */
  function SuccessesSinceHalfOpen(c: Config, scope: string, events: seq<Event>): nat {
    if events == [] then 0
    else
      var front, e := events[..|events| - 1], events[|events| - 1];
      if HalfOpening(Fold(c, scope, FRESH, front), e) then 0
      else SuccessesSinceHalfOpen(c, scope, front) + if e.Succeeded? then 1 else 0
  }

  lemma {:induction false} CountersMean(c: Config, scope: string, events: seq<Event>)
    ensures var r := Fold(c, scope, FRESH, events);
      && r.failures == FailuresSinceClose(c, scope, events)
      && (r.state == HalfOpen ==> r.trials == SuccessesSinceHalfOpen(c, scope, events))
  {
    if events != [] {
      CountersMean(c, scope, events[..|events| - 1]);
    }
  }

  // ---- transitions ----

  /** The phase after one event, read off the code's branches: what the results on whole runs below build
      on. */
  lemma LegalTransitions(c: Config, scope: string, r: Record, e: Event)
    requires !e.Cleared?
    ensures var p, q := r.state, After(c, scope, r, e).state;
      && (p == Closed ==>
          q == if e.Failed? && Rate(r.failures + 1, r.successes) > Threshold(c, scope) then Open else Closed)
      && (p == Open ==> q == if e.Queried? && e.at > r.cooldownUntil then HalfOpen else Open)
      && (p == HalfOpen ==> q == if e.Failed? then Open
                                 else if e.Succeeded? && r.trials + 1 >= TrialsNeeded(c, scope) then Closed
                                 else HalfOpen)
  {
  }

  function CountSucceeded(events: seq<Event>): nat {
    if events == [] then 0
    else CountSucceeded(events[..|events| - 1]) + if events[|events| - 1].Succeeded? then 1 else 0
  }

  ghost predicate NoFailure(events: seq<Event>) {
    forall k :: 0 <= k < |events| ==> !events[k].Failed?
  }

  ghost predicate NoReset(events: seq<Event>) {
    forall k :: 0 <= k < |events| ==> !events[k].Cleared?
  }

  /** Event `i` is a query after the deadline that let the trial begin. */
  ghost predicate BeginsTrial(c: Config, scope: string, r: Record, events: seq<Event>, i: nat)
    requires i < |events|
  {
    HalfOpening(Fold(c, scope, r, events[..i]), events[i])
  }

  lemma OneMoreInTrial(events: seq<Event>, i: nat)
    requires i < |events| - 1
    ensures var n := |events|;
      var rest, before, e := events[i + 1..], events[..n - 1][i + 1..], events[n - 1];
      && CountSucceeded(rest) == CountSucceeded(before) + (if e.Succeeded? then 1 else 0)
      && (NoFailure(rest) <==> NoFailure(before) && !e.Failed?)
  {
    var n := |events|;
    var rest, before, e := events[i + 1..], events[..n - 1][i + 1..], events[n - 1];
    assert rest == before + [e] && rest[..|rest| - 1] == before;
    assert NoFailure(rest) ==> NoFailure(before) by {
      assert forall k :: 0 <= k < |before| ==> before[k] == rest[k];
    }
    assert rest[|rest| - 1] == e;
  }

  /** A half-open record has seen, since its last query after the deadline, no failure and as many
      successes as its trial counter says. */
  lemma {:induction false} HalfOpenSince(c: Config, scope: string, r: Record, events: seq<Event>) returns (i: nat)
    requires r.state == Open && NoReset(events) && Fold(c, scope, r, events).state == HalfOpen
    ensures i < |events| && BeginsTrial(c, scope, r, events, i)
    ensures NoFailure(events[i + 1..]) && CountSucceeded(events[i + 1..]) == Fold(c, scope, r, events).trials
    ensures Fold(c, scope, r, events).trials < Max(1, TrialsNeeded(c, scope))
  {
    var n := |events|;
    var front, e := events[..n - 1], events[n - 1];
    var before := Fold(c, scope, r, front);
    LegalTransitions(c, scope, before, e);
    if before.state == Open {
      i := n - 1;
      assert events[..i] == front && events[i + 1..] == [];
    } else {
      i := HalfOpenSince(c, scope, r, front);
      assert front[..i] == events[..i];
      OneMoreInTrial(events, i);
    }
  }

  /** Every reset-free stretch that leads from open to closed contains a query after the deadline
      followed by exactly the required number of successes, with no failure between, that close the
      breaker. */
  lemma {:induction false} ClosingNeedsTrial(c: Config, scope: string, r: Record, events: seq<Event>)
      returns (i: nat, j: nat)
    requires r.state == Open && NoReset(events) && Fold(c, scope, r, events).state == Closed
    ensures i < j <= |events| && BeginsTrial(c, scope, r, events, i)
    ensures NoFailure(events[i + 1..j]) && CountSucceeded(events[i + 1..j]) == Max(1, TrialsNeeded(c, scope))
    ensures Fold(c, scope, r, events[..j]).state == Closed
  {
    var n := |events|;
    var front, e := events[..n - 1], events[n - 1];
    var before := Fold(c, scope, r, front);
    LegalTransitions(c, scope, before, e);
    if before.state == Closed {
      i, j := ClosingNeedsTrial(c, scope, r, front);
      assert front[..i] == events[..i] && front[i + 1..j] == events[i + 1..j] && front[..j] == events[..j];
    } else {
      i := HalfOpenSince(c, scope, r, front);
      j := n;
      assert front[..i] == events[..i] && events[..j] == events;
      OneMoreInTrial(events, i);
      assert events[i + 1..j] == events[i + 1..];
    }
  }

  // ---- rates and deadlines ----

  ghost predicate AtMostThreshold(c: Config, scope: string, r: Record) {
    r.failures as real <= Threshold(c, scope) * (r.failures + r.successes) as real
  }

  lemma RateAbove(f: nat, s: nat, threshold: real)
    requires f + s > 0
    ensures Rate(f, s) > threshold <==> f as real > threshold * (f + s) as real
  {
    var total := (f + s) as real;
    var rate := Rate(f, s);
    assert rate * total == f as real;
    if rate > threshold {
      Scale(rate, threshold, total);
    } else if rate < threshold {
      Scale(threshold, rate, total);
    }
  }

  lemma Scale(x: real, y: real, t: real)
    requires x > y && t > 0.0
    ensures x * t > y * t
  {
    assert (x - y) * t > 0.0;
  }

  lemma Grow(threshold: real, n: real)
    requires threshold >= 0.0
    ensures threshold * n <= threshold * (n + 1.0)
    ensures threshold <= 1.0 ==> threshold * (n + 1.0) <= threshold * n + 1.0
  {
    assert threshold * (n + 1.0) == threshold * n + threshold;
  }

  ghost predicate RateInv(c: Config, scope: string, r: Record) {
    && (r.state == Closed ==> AtMostThreshold(c, scope, r))
    && (r.state == Open ==> Threshold(c, scope) < 1.0 && r.failures >= 1 && !AtMostThreshold(c, scope, r))
    && (r.state == HalfOpen ==> Threshold(c, scope) < 1.0)
  }

  /** Outside closed, whatever the sign of the threshold. */
  ghost predicate TrippedInv(c: Config, scope: string, r: Record) {
    && (r.state == Open ==> Threshold(c, scope) < 1.0 && r.failures >= 1 && !AtMostThreshold(c, scope, r))
    && (r.state == HalfOpen ==> Threshold(c, scope) < 1.0)
  }

  lemma FailHalfOpen(c: Config, scope: string, r: Record, now: int)
    requires r.state == HalfOpen && TrippedInv(c, scope, r)
    ensures TrippedInv(c, scope, Fail(c, scope, r, now)) && Fail(c, scope, r, now).state == Open
  {
    hide Threshold, Rate, Cooldown;
    var n, f := r.failures + 1, Fail(c, scope, r, now);
    assert f.state == Open && f.failures == n && f.successes == 0;
    assert (n + 0) as real == n as real && n as real > 0.0;
    Scale(1.0, Threshold(c, scope), n as real);
    assert 1.0 * n as real == n as real;
  }

  lemma {:induction false} FailOpen(c: Config, scope: string, r: Record, now: int)
    requires r.state == Open && TrippedInv(c, scope, r)
    ensures TrippedInv(c, scope, Fail(c, scope, r, now)) && Fail(c, scope, r, now).state == Open
    ensures Fail(c, scope, r, now).cooldownUntil == now + Cooldown(c, scope)
  {
    hide Rate, Threshold, Cooldown;
    var total := (r.failures + r.successes) as real;
    assert (r.failures + 1 + r.successes) as real == total + 1.0;
    if Threshold(c, scope) >= 0.0 {
      Grow(Threshold(c, scope), total);
    } else {
      Below(Threshold(c, scope), total + 1.0);
    }
    RateAbove(r.failures + 1, r.successes, Threshold(c, scope));
  }

  lemma Below(threshold: real, t: real)
    requires threshold < 0.0 && t >= 0.0
    ensures threshold * t <= 0.0
  {
    assert (-threshold) * t >= 0.0;
  }

  lemma FailClosed(c: Config, scope: string, r: Record, now: int)
    requires r.state == Closed
    ensures TrippedInv(c, scope, Fail(c, scope, r, now))
    ensures Fail(c, scope, r, now).state == Closed ==> AtMostThreshold(c, scope, Fail(c, scope, r, now))
  {
    hide Rate, Threshold, Cooldown;
    var n := r.failures + 1;
    RateAbove(n, r.successes, Threshold(c, scope));
    if Threshold(c, scope) >= 1.0 {
      AtLeast(Threshold(c, scope), (n + r.successes) as real);
      assert (n + r.successes) as real >= n as real;
    }
  }

  lemma AtLeast(threshold: real, t: real)
    requires threshold >= 1.0 && t >= 0.0
    ensures threshold * t >= t
  {
    assert (threshold - 1.0) * t >= 0.0;
  }

  lemma StepKeepsRate(c: Config, scope: string, r: Record, e: Event)
    requires Threshold(c, scope) >= 0.0 && RateInv(c, scope, r)
    ensures RateInv(c, scope, After(c, scope, r, e))
  {
    match e
    case Failed(t) =>
      if r.state == HalfOpen { FailHalfOpen(c, scope, r, t); }
      else if r.state == Open { FailOpen(c, scope, r, t); }
      else { FailClosed(c, scope, r, t); }
    case Succeeded =>
      assert (r.failures + (r.successes + 1)) as real == (r.failures + r.successes) as real + 1.0;
      Grow(Threshold(c, scope), (r.failures + r.successes) as real);
    case _ =>
  }

  lemma {:induction false} TrippedInvariant(c: Config, scope: string, events: seq<Event>)
    ensures TrippedInv(c, scope, Fold(c, scope, FRESH, events))
  {
    if events != [] {
      var front, e := events[..|events| - 1], events[|events| - 1];
      TrippedInvariant(c, scope, front);
      StepKeepsTripped(c, scope, Fold(c, scope, FRESH, front), e);
    }
  }

  lemma StepKeepsTripped(c: Config, scope: string, r: Record, e: Event)
    requires TrippedInv(c, scope, r)
    ensures TrippedInv(c, scope, After(c, scope, r, e))
  {
    hide Threshold;
    if e.Failed? {
      match r.state
      case Closed => FailClosed(c, scope, r, e.at);
      case Open => FailOpen(c, scope, r, e.at);
      case HalfOpen => FailHalfOpen(c, scope, r, e.at);
    }
  }

  /** From the start, in every state of every run: closed means the failure rate is at or below the
      threshold, open means it is above. */
  lemma {:induction false} RateInvariant(c: Config, scope: string, events: seq<Event>)
    requires Threshold(c, scope) >= 0.0
    ensures RateInv(c, scope, Fold(c, scope, FRESH, events))
  {
    if events != [] {
      RateInvariant(c, scope, events[..|events| - 1]);
      StepKeepsRate(c, scope, Fold(c, scope, FRESH, events[..|events| - 1]), events[|events| - 1]);
    }
  }

  ghost predicate ClosedMeansBelow(c: Config, scope: string) {
    forall events ::
      Fold(c, scope, FRESH, events).state == Closed ==> AtMostThreshold(c, scope, Fold(c, scope, FRESH, events))
  }

  lemma FoldOne(c: Config, scope: string, r: Record, e: Event)
    ensures Fold(c, scope, r, [e]) == After(c, scope, r, e)
  {
    assert [e][..0] == [];
    assert Fold(c, scope, r, []) == r;
  }

  /** The exact condition for "closed means at or below the threshold". */
  lemma ClosedMeansBelowIff(c: Config, scope: string)
    ensures ClosedMeansBelow(c, scope) <==> Threshold(c, scope) >= 0.0
  {
    if Threshold(c, scope) >= 0.0 {
      forall events | Fold(c, scope, FRESH, events).state == Closed
        ensures AtMostThreshold(c, scope, Fold(c, scope, FRESH, events))
      {
        RateInvariant(c, scope, events);
      }
    } else {
      FoldOne(c, scope, FRESH, Succeeded);
      assert Fold(c, scope, FRESH, [Succeeded]).state == Closed;
      assert Threshold(c, scope) * 1.0 < 0.0;
    }
  }

  /** A scope can leave the closed phase if and only if its threshold is below one. */
  lemma CanTripIff(c: Config, scope: string)
    ensures (exists events :: Fold(c, scope, FRESH, events).state != Closed) <==> Threshold(c, scope) < 1.0
  {
    if Threshold(c, scope) < 1.0 {
      FoldOne(c, scope, FRESH, Failed(0));
      assert Rate(1, 0) == 1.0;
      assert Fold(c, scope, FRESH, [Failed(0)]).state != Closed;
    } else {
      forall events ensures Fold(c, scope, FRESH, events).state == Closed {
        RateInvariant(c, scope, events);
      }
    }
  }

  /** The shipped defaults multiply a device threshold of one half by two, so the account breaker never
      opens. */
  lemma DefaultAccountBreakerNeverOpens(c: Config, events: seq<Event>)
    requires c.deviceThreshold == 0.5 && c.accountMultiplier == 2.0
    ensures Fold(c, ACCOUNT_SCOPE, FRESH, events).state == Closed
  {
    CanTripIff(c, ACCOUNT_SCOPE);
  }

  function LastFailure(events: seq<Event>): Option<int> {
    if events == [] then None
    else if events[|events| - 1].Failed? then Some(events[|events| - 1].at)
    else LastFailure(events[..|events| - 1])
  }

  /** While open, the deadline is one full cooldown after the latest failure, so a query reports open
      exactly until then. */
  lemma {:induction false} OpenUntilCooldown(c: Config, scope: string, events: seq<Event>)
    requires Fold(c, scope, FRESH, events).state == Open
    ensures LastFailure(events).Some?
    ensures var r, deadline := Fold(c, scope, FRESH, events), LastFailure(events).value + Cooldown(c, scope);
      r.cooldownUntil == deadline && forall t :: Query(r, t).state == if t <= deadline then Open else HalfOpen
  {
    var front, e := events[..|events| - 1], events[|events| - 1];
    var before := Fold(c, scope, FRESH, front);
    TrippedInvariant(c, scope, front);
    if e.Failed? {
      if before.state == Open {
        FailOpen(c, scope, before, e.at);
      }
    } else {
      OpenUntilCooldown(c, scope, front);
    }
  }
}
