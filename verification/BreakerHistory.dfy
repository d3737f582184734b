/** What a breaker does, read off the events of its pair alone: which phase it is in and what a closed
    record has counted. */
module BreakerHistory {
  import opened Common
  import opened CircuitBreaker

  datatype Settings = Settings(threshold: real, cooldown: int, trials: int)

  /** The phase, and the numbers of events before the current closed and the current trial period. */
  datatype Standing = Standing(phase: Phase, closedFrom: nat, trialFrom: nat)

  function Failures(events: seq<Event>): nat { CountWhere(events, (e: Event) => e.Failed?) }

  function Successes(events: seq<Event>): nat { CountWhere(events, (e: Event) => e.Succeeded?) }

  /** More than the allowed share of the calls in the current closed period failed. */
  predicate TooManyFailed(p: Settings, f: nat, s: nat) {
    f as real > p.threshold * (f + s) as real
  }

  predicate CooledDown(p: Settings, before: seq<Event>, e: Event) {
    e.Queried? && LastFailure(before).Some? && e.at > LastFailure(before).value + p.cooldown
  }

  function StandingAfter(p: Settings, events: seq<Event>): (r: Standing)
    ensures r.closedFrom <= |events| && r.trialFrom <= |events|
  {
    if events == [] then Standing(Closed, 0, 0)
    else
      var n := |events|;
      var before, e := events[..n - 1], events[n - 1];
      var r := StandingAfter(p, before);
      if e.Cleared? then Standing(Closed, n, r.trialFrom)
      else
        match r.phase
        case Closed =>
          var period := events[r.closedFrom..];
          if e.Failed? && TooManyFailed(p, Failures(period), Successes(period)) then r.(phase := Open) else r
        case Open => if CooledDown(p, before, e) then r.(phase := HalfOpen, trialFrom := n) else r
        case HalfOpen =>
          if e.Failed? then r.(phase := Open)
          else if e.Succeeded? && Successes(events[r.trialFrom..]) >= p.trials then r.(phase := Closed, closedFrom := n)
          else r
  }

  function PhaseAfter(p: Settings, events: seq<Event>): Phase { StandingAfter(p, events).phase }

  /** The events since the breaker last closed or was reset. */
  function ClosedPeriod(p: Settings, events: seq<Event>): seq<Event> {
    events[StandingAfter(p, events).closedFrom..]
  }

  /** What the record of a pair holds once it has seen these events. */
  ghost predicate Tells(p: Settings, events: seq<Event>, r: Record) {
    var st := StandingAfter(p, events);
    && r.state == st.phase
    && (r.state == Closed ==>
          && r.failures == Failures(events[st.closedFrom..])
          && r.successes == Successes(events[st.closedFrom..]))
    && (r.state == HalfOpen ==> r.trials == Successes(events[st.trialFrom..]))
    && (r.state == Open ==>
          LastFailure(events).Some? && r.cooldownUntil == LastFailure(events).value + p.cooldown)
  }

  lemma OneMoreEvent(before: seq<Event>, e: Event, from: nat)
    requires from <= |before|
    ensures var events := before + [e];
      && Failures(events[from..]) == Failures(before[from..]) + Bit(e.Failed?)
      && Successes(events[from..]) == Successes(before[from..]) + Bit(e.Succeeded?)
      && events[..|events| - 1] == before && events[|events| - 1] == e
  {
    assert (before + [e])[from..] == before[from..] + [e];
    TakeOfAppend(before[from..], e);
    TakeOfAppend(before, e);
  }

  lemma NothingSince(events: seq<Event>)
    ensures Failures(events[|events|..]) == 0 && Successes(events[|events|..]) == 0
  {
    assert events[|events|..] == [];
  }

  lemma ClosedStep(c: Config, scope: string, p: Settings, before: seq<Event>, e: Event, r: Record)
    requires p == Settings(Threshold(c, scope), Cooldown(c, scope), TrialsNeeded(c, scope))
    requires Tells(p, before, r) && r.state == Closed && !e.Cleared?
    ensures Tells(p, before + [e], After(c, scope, r, e))
  {
    hide Failures, Successes, Threshold, Cooldown, TrialsNeeded, Rate;
    OneMoreEvent(before, e, StandingAfter(p, before).closedFrom);
    if e.Failed? {
      RateAbove(r.failures + 1, r.successes, Threshold(c, scope));
    }
  }

  lemma OpenStep(c: Config, scope: string, p: Settings, before: seq<Event>, e: Event, r: Record)
    requires p == Settings(Threshold(c, scope), Cooldown(c, scope), TrialsNeeded(c, scope))
    requires Tells(p, before, r) && r.state == Open && !e.Cleared? && TrippedInv(c, scope, r)
    ensures Tells(p, before + [e], After(c, scope, r, e))
  {
    hide Failures, Successes, Threshold, Cooldown, TrialsNeeded, Rate;
    OneMoreEvent(before, e, 0);
    NothingSince(before + [e]);
    if e.Failed? {
      FailOpen(c, scope, r, e.at);
    }
  }

  lemma HalfOpenStep(c: Config, scope: string, p: Settings, before: seq<Event>, e: Event, r: Record)
    requires p == Settings(Threshold(c, scope), Cooldown(c, scope), TrialsNeeded(c, scope))
    requires Tells(p, before, r) && r.state == HalfOpen && !e.Cleared?
    ensures Tells(p, before + [e], After(c, scope, r, e))
  {
    hide Failures, Successes, Threshold, Cooldown, TrialsNeeded, Rate;
    OneMoreEvent(before, e, StandingAfter(p, before).trialFrom);
    NothingSince(before + [e]);
  }

  lemma {:induction false} RecordTells(c: Config, scope: string, events: seq<Event>)
    ensures Tells(Settings(Threshold(c, scope), Cooldown(c, scope), TrialsNeeded(c, scope)), events,
                  Fold(c, scope, FRESH, events))
  {
    hide Threshold, Cooldown, TrialsNeeded, Tells, After;
    var p := Settings(Threshold(c, scope), Cooldown(c, scope), TrialsNeeded(c, scope));
    if events == [] {
      FreshTells(p);
    } else {
      var n := |events|;
      var before, e := events[..n - 1], events[n - 1];
      var r := Fold(c, scope, FRESH, before);
      assert events == before + [e];
      RecordTells(c, scope, before);
      TrippedInvariant(c, scope, before);
      if e.Cleared? {
        ClearedTells(c, scope, p, before, r);
      } else if r.state == Closed {
        ClosedStep(c, scope, p, before, e, r);
      } else if r.state == Open {
        OpenStep(c, scope, p, before, e, r);
      } else {
        HalfOpenStep(c, scope, p, before, e, r);
      }
    }
  }

  lemma FreshTells(p: Settings)
    ensures Tells(p, [], FRESH)
  {
  }

  lemma ClearedTells(c: Config, scope: string, p: Settings, before: seq<Event>, r: Record)
    ensures Tells(p, before + [Cleared], After(c, scope, r, Cleared))
  {
    OneMoreEvent(before, Cleared, 0);
    NothingSince(before + [Cleared]);
  }

  /** The settings of the three scopes and of any other. */
  function SettingsOf(c: Config, scope: string): (p: Settings)
    ensures scope == "device" ==> p == Settings(c.deviceThreshold, c.deviceCooldown, c.deviceTrials)
    ensures scope == "account" ==>
      p == Settings(c.accountMultiplier * c.deviceThreshold, c.accountCooldown, 3)
    ensures scope == "carrier" ==> p == Settings(c.carrierThreshold, c.carrierCooldown, 3)
    ensures scope !in {"device", "account", "carrier"} ==> p == Settings(0.5, 120, 3)
  {
    Settings(Threshold(c, scope), Cooldown(c, scope), TrialsNeeded(c, scope))
  }

  /** After any calls on any pairs, the phase of a pair is the one its own events lead to, and a closed
      record has counted exactly the failures and successes since it last closed or was reset. */
  lemma PhaseFollowsEvents(c: Config, calls: seq<Call>, scope: string, value: string)
    requires ':' !in scope && forall i :: 0 <= i < |calls| ==> ':' !in calls[i].scope
    ensures var r := Lookup(Run(c, map[], calls), KeyOf(scope, value));
      var p, own := SettingsOf(c, scope), Own(calls, scope, value);
      && r.state == PhaseAfter(p, own)
      && (r.state == Closed ==>
            r.failures == Failures(ClosedPeriod(p, own)) && r.successes == Successes(ClosedPeriod(p, own)))
  {
    hide Run, Fold, Own, KeyOf;
    RecordIsFoldOfOwnEvents(c, calls, scope, value);
    RecordTells(c, scope, Own(calls, scope, value));
  }

  lemma FailureOpens(c: Config, scope: string, p: Settings, events: seq<Event>, at: int)
    requires p == Settings(Threshold(c, scope), Cooldown(c, scope), TrialsNeeded(c, scope))
    requires Fold(c, scope, FRESH, events).state == Closed
    ensures var period := ClosedPeriod(p, events);
      Fold(c, scope, FRESH, events + [Failed(at)]).state != Closed <==>
        TooManyFailed(p, Failures(period) + 1, Successes(period))
  {
    hide Fold, Threshold, Cooldown, TrialsNeeded, Failures, Successes, TooManyFailed;
    RecordTells(c, scope, events);
    RecordTells(c, scope, events + [Failed(at)]);
    OneMoreEvent(events, Failed(at), StandingAfter(p, events).closedFrom);
  }

  /** In every run a failure takes a closed pair out of closed if and only if, with it, more than the
      threshold's share of the calls since the last close failed. */
  lemma FailureOpensIff(c: Config, scope: string, events: seq<Event>, at: int)
    requires Fold(c, scope, FRESH, events).state == Closed
    ensures var p := SettingsOf(c, scope); var period := ClosedPeriod(p, events);
      var f, s := Failures(period), Successes(period);
      Fold(c, scope, FRESH, events + [Failed(at)]).state != Closed <==>
        (f + 1) as real > p.threshold * (f + 1 + s) as real
  {
    hide Fold, Threshold, Cooldown, TrialsNeeded, Failures, Successes, ClosedPeriod;
    FailureOpens(c, scope, SettingsOf(c, scope), events, at);
  }
}
