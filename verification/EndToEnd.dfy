/** The lane protocol with the dispatch loop as its handler. */
module EndToEnd {
  import opened Common
  import opened Lanes
  import LaneProtocol
  import Dispatch

  /** The verdict a worker gets from handling one message. */
  function VerdictOf(m: Dispatch.Message, scored: seq<Dispatch.Candidate>): LaneProtocol.Verdict {
    LaneProtocol.Verdict(Dispatch.Process(m, scored).error == None, Published(m, scored))
  }

  /** Successful publishes of one handler run. */
  function Published(m: Dispatch.Message, scored: seq<Dispatch.Candidate>): nat {
    CountWhere(Dispatch.Process(m, scored).effects, IsPublish)
  }

  predicate IsPublish(e: Dispatch.Effect) {
    e.Publish? && e.ok
  }

  lemma {:induction false} CountConcat(a: seq<Dispatch.Effect>, b: seq<Dispatch.Effect>)
    ensures CountWhere(a + b, IsPublish) == CountWhere(a, IsPublish) + CountWhere(b, IsPublish)
  {
    if b == [] {
      assert a + b == a;
    } else {
      CountConcat(a, b[..|b| - 1]);
      assert (a + b)[..|a + b| - 1] == a + b[..|b| - 1];
    }
  }

  lemma {:induction false} NonePublished(a: seq<Dispatch.Effect>)
    requires forall e :: e in a ==> !IsPublish(e)
    ensures CountWhere(a, IsPublish) == 0
  {
    if a != [] {
      NonePublished(a[..|a| - 1]);
    }
  }

  lemma AttemptPublishes(account: string, k: Dispatch.Candidate)
    ensures CountWhere(Dispatch.Effects(account, k), IsPublish) == Bit(Dispatch.Try(k) == Dispatch.Delivered)
  {
    var lead := Dispatch.Lead(k);
    var tail := if k.connected && k.sendOk then Dispatch.SuccessEffects(account, k.device, k.carrier)
                else Dispatch.FailureEffects(k.device);
    if Dispatch.PassesGates(k) {
      CountConcat(lead, tail);
      NonePublished(tail);
      var health := if k.healthChanged then [Dispatch.HealthUpdate(k.device)] else [];
      var publish := if k.connected then [Dispatch.Publish(k.device, k.sendOk)] else [];
      CountConcat(health, publish);
      NonePublished(health);
      if !(k.connected && k.sendOk) {
        NonePublished(publish);
      } else {
        assert publish[..0] == [];
      }
    }
  }

  lemma {:induction false} LosersPublishNothing(account: string, scored: seq<Dispatch.Candidate>)
    requires forall i :: 0 <= i < |scored| ==> Dispatch.Try(scored[i]) != Dispatch.Delivered
    ensures CountWhere(Dispatch.AllEffects(account, scored), IsPublish) == 0
  {
    if scored != [] {
      LosersPublishNothing(account, scored[..|scored| - 1]);
      AttemptPublishes(account, scored[|scored| - 1]);
      CountConcat(Dispatch.AllEffects(account, scored[..|scored| - 1]),
          Dispatch.Effects(account, scored[|scored| - 1]));
    }
  }

  /** One handler run publishes once if it has a winner and never otherwise. */
  lemma PublishesOnce(m: Dispatch.Message, scored: seq<Dispatch.Candidate>)
    ensures Published(m, scored) == Bit(Dispatch.Winner(m, scored).Some?)
  {
    hide Dispatch.Effects, Dispatch.Try;
    var failed := [Dispatch.CountedFailed, Dispatch.CountedProcessed(false)];
    NonePublished(failed);
    if m.early == None && scored != [] {
      var k := Dispatch.FirstDelivered(scored);
      if k < |scored| {
        assert scored[..k + 1][..k] == scored[..k];
        LosersPublishNothing(m.account, scored[..k]);
        AttemptPublishes(m.account, scored[k]);
        CountConcat(Dispatch.AllEffects(m.account, scored[..k]), Dispatch.Effects(m.account, scored[k]));
      } else {
        LosersPublishNothing(m.account, scored);
        CountConcat(Dispatch.AllEffects(m.account, scored), if Dispatch.LastError(scored).Some? then failed else []);
      }
    }
  }

  ghost predicate FromDispatch(v: LaneProtocol.Verdict) {
    exists m, scored :: v == VerdictOf(m, scored)
  }

  /** The call behind a verdict found nothing but open breakers. */
  ghost predicate OnlyOpenBreakers(v: LaneProtocol.Verdict) {
    exists m, scored :: v == VerdictOf(m, scored) && Dispatch.AllOpen(m, scored)
  }

  lemma VerdictMeans(v: LaneProtocol.Verdict)
    requires FromDispatch(v)
    ensures v.publishes <= 1
    ensures v.ok ==> v.publishes == 1 || OnlyOpenBreakers(v)
  {
    var m, scored :| v == VerdictOf(m, scored);
    PublishesOnce(m, scored);
    Dispatch.NilReturnIff(m, scored);
  }

  // ---- consumers whose handler is the dispatch loop, publish by publish ----

  /** The answers the gates and the broker will give to one dispatch call. */
  datatype Call = Call(m: Dispatch.Message, scored: seq<Dispatch.Candidate>)

  /** Beside the lane protocol: what the call in each worker's handler will return, how many successful
      publishes it has made so far, and all successful publishes, in order. A worker that crashes loses
      its call, not its publishes. */
  datatype State = State(lane: LaneProtocol.State, plans: seq<LaneProtocol.Verdict>, sent: seq<nat>,
                         published: seq<Ref>)

  datatype Action = Lane(a: LaneProtocol.Action, call: Call) | Publish(w: nat)

  function Init(n: nat): State {
    State(LaneProtocol.Init(n), seq(n, _ => LaneProtocol.Verdict(false, 0)), seq(n, _ => 0), [])
  }

  predicate Sized(s: State) { |s.plans| == |s.sent| == |s.lane.workers| }

  predicate Handles(s: State, w: nat) {
    w < |s.lane.workers| && s.lane.workers[w].Handling?
  }

  predicate Starts(s: State, a: LaneProtocol.Action) {
    a.Act? && a.move.Start? && a.w < |s.lane.workers| && s.lane.workers[a.w].Holding?
  }

  predicate Finishes(s: State, a: LaneProtocol.Action) {
    a.Act? && a.move.Finish? && Handles(s, a.w)
  }

  /** A handler run starts with some call, makes that call's publishes one by one, and may return only
      what the call returns, after all of them; it may crash at any point. */
  function Step(c: LaneProtocol.Config, s: State, a: Action): (t: State)
    requires Sized(s)
    ensures Sized(t)
  {
    match a
    case Lane(b, call) =>
      if Finishes(s, b) && !(b.move.verdict == s.plans[b.w] && s.sent[b.w] == s.plans[b.w].publishes) then s
      else
        var lane := LaneProtocol.Step(c, s.lane, b);
        if Starts(s, b) then
          s.(lane := lane, plans := s.plans[b.w := VerdictOf(call.m, call.scored)], sent := s.sent[b.w := 0])
        else s.(lane := lane)
    case Publish(w) =>
      if Handles(s, w) && s.sent[w] < s.plans[w].publishes
      then s.(sent := s.sent[w := s.sent[w] + 1], published := s.published + [s.lane.workers[w].ref])
      else s
  }

  function Run(c: LaneProtocol.Config, n: nat, acts: seq<Action>): (s: State)
    ensures Sized(s)
  {
    if acts == [] then Init(n) else Step(c, Run(c, n, acts[..|acts| - 1]), acts[|acts| - 1])
  }

  /** The lane protocol's part of every run is one of its own runs. */
  lemma {:induction false} LaneRun(c: LaneProtocol.Config, n: nat, acts: seq<Action>)
      returns (lane: seq<LaneProtocol.Action>)
    ensures LaneProtocol.Run(c, LaneProtocol.Init(n), lane) == Run(c, n, acts).lane
  {
    hide LaneProtocol.Step;
    lane := [];
    if acts != [] {
      lane := LaneRun(c, n, acts[..|acts| - 1]);
      var last := acts[|acts| - 1];
      if last.Lane? && Run(c, n, acts).lane == LaneProtocol.Step(c, Run(c, n, acts[..|acts| - 1]).lane, last.a) {
        TakeOfAppend(lane, last.a);
        lane := lane + [last.a];
      }
    }
  }

  // ---- what every run keeps ----

  ghost predicate WorkerInv(s: State, w: nat)
    requires Sized(s) && w < |s.lane.workers|
  {
    s.lane.workers[w].Handling? ==>
      && FromDispatch(s.plans[w])
      && Occurrences(s.published, s.lane.workers[w].ref) == s.sent[w] <= s.plans[w].publishes
  }

  ghost predicate ResultInv(s: State, r: LaneProtocol.Result) {
    FromDispatch(r.verdict) && Occurrences(s.published, r.ref) == r.verdict.publishes
  }

  ghost predicate RefInv(s: State, ref: Ref) {
    && Occurrences(s.published, ref) <= 1
    && (ref !in s.lane.started ==> Occurrences(s.published, ref) == 0)
  }

  ghost predicate Inv(s: State) {
    && Sized(s)
    && (forall w :: 0 <= w < |s.lane.workers| ==> WorkerInv(s, w))
    && (forall i :: 0 <= i < |s.lane.results| ==> ResultInv(s, s.lane.results[i]))
    && (forall ref: Ref :: RefInv(s, ref))
  }

  /** What one lane step does to handlers, reports and starts. */
  lemma LaneStepEffect(c: LaneProtocol.Config, s: LaneProtocol.State, a: LaneProtocol.Action)
    ensures var t := LaneProtocol.Step(c, s, a);
      && |t.workers| == |s.workers|
      && (forall w :: 0 <= w < |t.workers| && t.workers[w].Handling? ==>
            || s.workers[w] == t.workers[w]
            || (a == LaneProtocol.Act(w, LaneProtocol.Start) && s.workers[w].Holding?
                && s.workers[w].ref == t.workers[w].ref))
      && (t.results == s.results
          || (a.Act? && a.move.Finish? && a.w < |s.workers| && s.workers[a.w].Handling?
              && t.results == s.results + [LaneProtocol.Result(s.workers[a.w].ref, a.move.verdict)]))
      && s.started <= t.started
  {
    hide LaneProtocol.Step;
    LaneStepWorkers(c, s, a);
    LaneStepHistory(c, s, a);
  }

  lemma LaneStepWorkers(c: LaneProtocol.Config, s: LaneProtocol.State, a: LaneProtocol.Action)
    ensures var t := LaneProtocol.Step(c, s, a);
      && |t.workers| == |s.workers|
      && (forall w :: 0 <= w < |t.workers| && t.workers[w].Handling? ==>
            || s.workers[w] == t.workers[w]
            || (a == LaneProtocol.Act(w, LaneProtocol.Start) && s.workers[w].Holding?
                && s.workers[w].ref == t.workers[w].ref))
  {
    hide XAdd, LaneProtocol.WorkerStep;
    if a.Act? && a.w < |s.workers| {
      MovedWorker(c, s, a.w, a.move);
    }
  }

  lemma MovedWorker(c: LaneProtocol.Config, s: LaneProtocol.State, w: nat, m: LaneProtocol.Move)
    requires w < |s.workers|
    ensures var t := LaneProtocol.WorkerStep(c, s, w, m);
      && |t.workers| == |s.workers|
      && (forall v :: 0 <= v < |t.workers| && v != w ==> t.workers[v] == s.workers[v])
      && (t.workers[w].Handling? ==>
            || s.workers[w] == t.workers[w]
            || (m.Start? && s.workers[w].Holding? && s.workers[w].ref == t.workers[w].ref))
  {
    hide XReadGroup, XAck, Log, Cursor;
  }

  lemma LaneStepHistory(c: LaneProtocol.Config, s: LaneProtocol.State, a: LaneProtocol.Action)
    ensures var t := LaneProtocol.Step(c, s, a);
      && (t.results == s.results
          || (a.Act? && a.move.Finish? && a.w < |s.workers| && s.workers[a.w].Handling?
              && t.results == s.results + [LaneProtocol.Result(s.workers[a.w].ref, a.move.verdict)]))
      && s.started <= t.started
  {
    hide XReadGroup, XAck, Gate, Log, Cursor, XAdd;
  }

  lemma HeldFacts(c: LaneProtocol.Config, s: LaneProtocol.State, w: nat)
    requires LaneProtocol.Inv(c, s) && w < |s.workers|
    ensures s.workers[w].Holding? ==> s.workers[w].ref !in s.started
    ensures s.workers[w].Handling? ==>
      && s.workers[w].ref in s.started
      && (forall i :: 0 <= i < |s.results| ==> s.results[i].ref != s.workers[w].ref)
      && (forall v :: 0 <= v < |s.workers| && v != w && s.workers[v].Handling? ==> s.workers[v].ref != s.workers[w].ref)
  {
    hide LaneProtocol.Places, LaneProtocol.InOrder, LaneProtocol.Histories;
    assert LaneProtocol.WorkerOk(c, s, s.workers[w]);
    if s.workers[w].Handling? {
      forall i | 0 <= i < |s.results| ensures s.results[i].ref != s.workers[w].ref {
        LaneProtocol.ResultIsReport(s, i);
      }
      forall v | 0 <= v < |s.workers| && v != w && s.workers[v].Handling? ensures s.workers[v].ref != s.workers[w].ref {
        assert LaneProtocol.Held(s.workers[v]) == Some(s.workers[v].ref);
      }
    }
  }

  lemma StartedStaysBounded(s: State, t: State)
    requires forall ref: Ref :: RefInv(s, ref)
    requires t.published == s.published && s.lane.started <= t.lane.started
    ensures forall ref: Ref :: RefInv(t, ref)
  {
    forall ref: Ref ensures RefInv(t, ref) {
      assert RefInv(s, ref);
    }
  }

  lemma LaneKeepsInv(c: LaneProtocol.Config, s: State, a: LaneProtocol.Action, call: Call)
    requires Inv(s) && LaneProtocol.Inv(c, s.lane)
    ensures Inv(Step(c, s, Lane(a, call)))
  {
    hide LaneProtocol.Inv, LaneProtocol.Step, FromDispatch, VerdictOf, Occurrences;
    var t := Step(c, s, Lane(a, call));
    LaneStepEffect(c, s.lane, a);
    StartedStaysBounded(s, t);
    forall w | 0 <= w < |t.lane.workers| ensures WorkerInv(t, w) {
      assert WorkerInv(s, w);
      if Starts(s, a) && a.w == w {
        HeldFacts(c, s.lane, w);
        assert RefInv(s, s.lane.workers[w].ref);
        IsFromDispatch(call);
      }
    }
    forall i | 0 <= i < |t.lane.results| ensures ResultInv(t, t.lane.results[i]) {
      if i < |s.lane.results| {
        assert ResultInv(s, s.lane.results[i]);
      } else {
        assert WorkerInv(s, a.w);
      }
    }
  }

  lemma IsFromDispatch(call: Call)
    ensures FromDispatch(VerdictOf(call.m, call.scored))
  {
  }

  lemma OneMorePublish(published: seq<Ref>, ref: Ref)
    ensures forall x: Ref :: Occurrences(published + [ref], x) == Occurrences(published, x) + Bit(x == ref)
  {
    TakeOfAppend(published, ref);
  }

  lemma PublishKeepsInv(c: LaneProtocol.Config, s: State, w: nat)
    requires Inv(s) && LaneProtocol.Inv(c, s.lane)
    ensures Inv(Step(c, s, Publish(w)))
  {
    hide LaneProtocol.Inv, FromDispatch, Occurrences;
    if Handles(s, w) && s.sent[w] < s.plans[w].publishes {
      var t, ref := Step(c, s, Publish(w)), s.lane.workers[w].ref;
      HeldFacts(c, s.lane, w);
      assert WorkerInv(s, w);
      VerdictMeans(s.plans[w]);
      OneMorePublish(s.published, ref);
      forall v | 0 <= v < |t.lane.workers| ensures WorkerInv(t, v) {
        assert WorkerInv(s, v);
      }
      forall i | 0 <= i < |t.lane.results| ensures ResultInv(t, t.lane.results[i]) {
        assert ResultInv(s, s.lane.results[i]);
      }
      forall x: Ref ensures RefInv(t, x) {
        assert RefInv(s, x);
      }
    }
  }

  lemma {:induction false} RunKeepsInv(c: LaneProtocol.Config, n: nat, acts: seq<Action>)
    ensures Inv(Run(c, n, acts)) && LaneProtocol.Inv(c, Run(c, n, acts).lane)
  {
    var lane := LaneRun(c, n, acts);
    LaneProtocol.RunKeepsInv(c, LaneProtocol.Init(n), lane);
    if acts == [] {
      assert Inv(Init(n)) by { hide LaneProtocol.Inv; }
    } else {
      hide Inv, LaneProtocol.Inv, Step;
      RunKeepsInv(c, n, acts[..|acts| - 1]);
      var s, last := Run(c, n, acts[..|acts| - 1]), acts[|acts| - 1];
      if last.Lane? {
        LaneKeepsInv(c, s, last.a, last.call);
      } else {
        PublishKeepsInv(c, s, last.w);
      }
    }
  }

  /** However producers and workers interleave, fail and crash, before, between or after publishes, every
      entry is successfully published at most once; and a decodable entry that was acknowledged was
      published exactly once, or its handler run found every candidate's breaker open. */
  lemma {:induction false} PublishedAtMostOnce(c: LaneProtocol.Config, n: nat, acts: seq<Action>, ref: Ref)
    ensures var s := Run(c, n, acts);
      && Occurrences(s.published, ref) <= 1
      && (ref in s.lane.streams.acked && EntryOf(s.lane.streams, ref) != Some(Undecodable) ==>
            || Occurrences(s.published, ref) == 1
            || exists i :: 0 <= i < |s.lane.results| && s.lane.results[i].ref == ref
                           && OnlyOpenBreakers(s.lane.results[i].verdict))
  {
    hide FromDispatch, OnlyOpenBreakers, Step, LaneProtocol.Step, LaneProtocol.Inv, Run, Occurrences;
    var s := Run(c, n, acts);
    RunKeepsInv(c, n, acts);
    assert RefInv(s, ref);
    if ref in s.lane.streams.acked && EntryOf(s.lane.streams, ref) != Some(Undecodable) {
      var lane := LaneRun(c, n, acts);
      LaneProtocol.AckNeedsSuccess(c, n, lane, ref);
      var i :| 0 <= i < |s.lane.results| && s.lane.results[i].ref == ref && s.lane.results[i].verdict.ok;
      assert ResultInv(s, s.lane.results[i]);
      VerdictMeans(s.lane.results[i].verdict);
    }
  }

  /** The loss is real: a call whose breakers are all open returns no error and publishes nothing, so
      its message is acknowledged unsent. */
  lemma AllOpenLosesTheMessage(m: Dispatch.Message, scored: seq<Dispatch.Candidate>)
    requires Dispatch.AllOpen(m, scored)
    ensures VerdictOf(m, scored) == LaneProtocol.Verdict(true, 0)
  {
    PublishesOnce(m, scored);
    Dispatch.NilReturnIff(m, scored);
  }
}
