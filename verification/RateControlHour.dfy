/** The hour counter is bounded by the hour limit and by what the sixty minute counters let through. */
module RateControlHour {
  import opened Common
  import opened RateControl

  function MinuteKey(d: string, m: int): Key { Key(PerMinute, d, m) }

  function HourKey(d: string, h: int): Key { Key(PerHour, d, h) }

  /** Increments of the first `j` minutes of hour `h`. */
  function HourSum(s: State, d: string, h: int, j: nat): nat {
    if j == 0 then 0 else HourSum(s, d, h, j - 1) + Total(s, MinuteKey(d, 60 * h + j - 1))
  }

  /** The worker may still increment the hour without a further increment of one of its minutes: it named
      an earlier minute before the hour began, or has already counted its minute. */
  predicate Shares(w: Worker, d: string, h: int) {
    match w
    case NamingMinute(e, m) => e == d && m < 60 * h
    case Writing(e, m, g, stage) => e == d && g == h && stage <= 2 && (m < 60 * h || stage >= 1)
    case _ => false
  }

  function SharerOf(d: string, h: int): Worker -> bool {
    w => Shares(w, d, h)
  }

  /** A minute is named before its hour. */
  predicate MinuteFirst(w: Worker) {
    w.Writing? ==> w.m <= 60 * w.h + 59
  }

  ghost predicate HourInv(s: State, d: string, h: int) {
    && (forall w :: 0 <= w < |s.workers| ==> NamedBy(s.workers[w], s.now) && MinuteFirst(s.workers[w]))
    && (if Window(PerHour, s.now) < h then Total(s, HourKey(d, h)) == 0
        else Total(s, HourKey(d, h)) + CountWhere(s.workers, SharerOf(d, h)) <= HourSum(s, d, h, 60) + |s.workers|)
  }

  lemma {:induction false} SumDependsOn(s: State, t: State, d: string, h: int, j: nat)
    requires forall m :: Total(t, MinuteKey(d, m)) == Total(s, MinuteKey(d, m))
    ensures HourSum(t, d, h, j) == HourSum(s, d, h, j)
  {
    if j > 0 {
      SumDependsOn(s, t, d, h, j - 1);
    }
  }

  /** One increment of minute `m` counts once in its hour. */
  lemma {:induction false} SumAfterMinute(s: State, t: State, d: string, h: int, j: nat, m: int)
    requires forall x :: Total(t, MinuteKey(d, x)) == Total(s, MinuteKey(d, x)) + Bit(x == m)
    ensures HourSum(t, d, h, j) == HourSum(s, d, h, j) + Bit(60 * h <= m < 60 * h + j)
  {
    if j > 0 {
      SumAfterMinute(s, t, d, h, j - 1, m);
    }
  }

  lemma MinuteOfHour(now: nat)
    ensures Window(PerMinute, now) <= 60 * Window(PerHour, now) + 59
    ensures forall h :: Window(PerHour, now) >= h ==> Window(PerMinute, now) >= 60 * h
  {
  }

  /** A worker moves on and no counter changes. */
  lemma MoveKeepsHour(s: State, w: nat, worker: Worker, d: string, h: int)
    requires HourInv(s, d, h) && w < |s.workers| && NamedBy(worker, s.now) && MinuteFirst(worker)
    requires Window(PerHour, s.now) >= h && Shares(worker, d, h) ==> Shares(s.workers[w], d, h)
    ensures HourInv(Become(s, w, worker), d, h)
  {
    hide HourSum, NamedBy, MinuteFirst;
    var t := Become(s, w, worker);
    SumDependsOn(s, t, d, h, 60);
    CountUpdate(s.workers, w, worker, SharerOf(d, h));
  }

  lemma ProlongKeepsHour(s: State, k: Key, d: string, h: int)
    requires HourInv(s, d, h)
    ensures HourInv(Prolong(s, k), d, h)
  {
    hide HourSum, NamedBy, MinuteFirst;
    SumDependsOn(s, Prolong(s, k), d, h, 60);
  }

  lemma TickKeepsHour(s: State, seconds: nat, d: string, h: int)
    requires HourInv(s, d, h)
    ensures HourInv(s.(now := s.now + seconds), d, h)
  {
    hide HourSum, MinuteFirst;
    var t := s.(now := s.now + seconds);
    SumDependsOn(s, t, d, h, 60);
    forall w | 0 <= w < |t.workers| ensures NamedBy(t.workers[w], t.now) && MinuteFirst(t.workers[w]) {
      assert NamedBy(s.workers[w], s.now);
    }
  }

  lemma CountMinuteKeepsHour(s: State, w: nat, d: string, h: int)
    requires HourInv(s, d, h) && w < |s.workers| && s.workers[w].Writing? && s.workers[w].stage == 0
    ensures var Writing(e, m, g, _) := s.workers[w];
      HourInv(Become(Bump(s, MinuteKey(e, m)), w, Writing(e, m, g, 1)), d, h)
  {
    hide HourSum;
    var Writing(e, m, g, _) := s.workers[w];
    var t := Become(Bump(s, MinuteKey(e, m)), w, Writing(e, m, g, 1));
    assert NamedBy(s.workers[w], s.now) && MinuteFirst(s.workers[w]);
    CountUpdate(s.workers, w, t.workers[w], SharerOf(d, h));
    if e == d {
      SumAfterMinute(s, t, d, h, 60, m);
    } else {
      SumDependsOn(s, t, d, h, 60);
    }
  }

  lemma CountHourKeepsHour(s: State, w: nat, d: string, h: int)
    requires HourInv(s, d, h) && w < |s.workers| && s.workers[w].Writing? && s.workers[w].stage == 2
    ensures var Writing(e, m, g, _) := s.workers[w];
      HourInv(Become(Bump(s, HourKey(e, g)), w, Writing(e, m, g, 3)), d, h)
  {
    hide HourSum;
    var Writing(e, m, g, _) := s.workers[w];
    var t := Become(Bump(s, HourKey(e, g)), w, Writing(e, m, g, 3));
    assert NamedBy(s.workers[w], s.now) && MinuteFirst(s.workers[w]);
    CountUpdate(s.workers, w, t.workers[w], SharerOf(d, h));
    SumDependsOn(s, t, d, h, 60);
  }

  lemma WriteKeepsHour(c: Limits, s: State, w: nat, d: string, h: int)
    requires HourInv(s, d, h) && w < |s.workers| && s.workers[w].Writing?
    ensures HourInv(DoNext(c, s, w), d, h)
  {
    hide HourInv;
    var Writing(e, m, g, stage) := s.workers[w];
    assert NamedBy(s.workers[w], s.now) && MinuteFirst(s.workers[w]) by { InvWorker(s, w, d, h); }
    if stage == 0 {
      CountMinuteKeepsHour(s, w, d, h);
    } else if stage == 1 {
      ProlongKeepsHour(s, MinuteKey(e, m), d, h);
      MoveKeepsHour(Prolong(s, MinuteKey(e, m)), w, Writing(e, m, g, 2), d, h);
    } else if stage == 2 {
      CountHourKeepsHour(s, w, d, h);
    } else {
      ProlongKeepsHour(s, HourKey(e, g), d, h);
      MoveKeepsHour(Prolong(s, HourKey(e, g)), w, Idle, d, h);
    }
  }

  lemma InvWorker(s: State, w: nat, d: string, h: int)
    requires HourInv(s, d, h) && w < |s.workers|
    ensures NamedBy(s.workers[w], s.now) && MinuteFirst(s.workers[w])
  {
  }

  lemma StepKeepsHour(c: Limits, s: State, a: Action, d: string, h: int)
    requires HourInv(s, d, h)
    ensures HourInv(Step(c, s, a), d, h)
  {
    hide HourInv;
    if a.Tick? {
      TickKeepsHour(s, a.seconds, d, h);
    } else if a.w < |s.workers| {
      var worker := s.workers[a.w];
      InvWorker(s, a.w, d, h);
      MinuteOfHour(s.now);
      if a.move.Next? && worker.Writing? {
        WriteKeepsHour(c, s, a.w, d, h);
      } else {
        var t := Step(c, s, a);
        assert t == s || t == Become(s, a.w, t.workers[a.w]);
        if t != s {
          MoveKeepsHour(s, a.w, t.workers[a.w], d, h);
        }
      }
    }
  }

  lemma {:induction false} RunKeepsHour(c: Limits, n: nat, now: nat, acts: seq<Action>, d: string, h: int)
    ensures HourInv(Run(c, Init(n, now), acts), d, h) && |Run(c, Init(n, now), acts).workers| == n
  {
    if acts == [] {
      CountNone(Init(n, now).workers, SharerOf(d, h));
    } else {
      hide HourInv;
      RunKeepsHour(c, n, now, acts[..|acts| - 1], d, h);
      StepKeepsHour(c, Run(c, Init(n, now), acts[..|acts| - 1]), acts[|acts| - 1], d, h);
    }
  }

  lemma {:induction false} SumBounded(c: Limits, n: nat, now: nat, acts: seq<Action>, d: string, h: int, j: nat)
    requires c.perMinute >= 1 && c.perHour >= 1
    ensures HourSum(Run(c, Init(n, now), acts), d, h, j) <= j * (c.perMinute - 1 + n)
  {
    if j > 0 {
      SumBounded(c, n, now, acts, d, h, j - 1);
      DeviceCountersBounded(c, n, now, acts, MinuteKey(d, 60 * h + j - 1));
      assert j * (c.perMinute - 1 + n) == (j - 1) * (c.perMinute - 1 + n) + (c.perMinute - 1 + n);
    }
  }

  /** The most an hour counter can reach. */
  function HourMaximum(c: Limits, n: nat): int {
    Min(c.perHour - 1 + n, 60 * (c.perMinute - 1 + n) + n)
  }

  /** In every interleaving the hour counter stays within the hour limit minus one plus the workers, and
      within what sixty minutes let through plus one increment per worker carried over from the hour
      before. */
  lemma HourCounterBounded(c: Limits, n: nat, now: nat, acts: seq<Action>, d: string, h: int)
    requires c.perMinute >= 1 && c.perHour >= 1
    ensures Total(Run(c, Init(n, now), acts), HourKey(d, h)) <= HourMaximum(c, n)
  {
    hide HourSum, Run;
    DeviceCountersBounded(c, n, now, acts, HourKey(d, h));
    RunKeepsHour(c, n, now, acts, d, h);
    SumBounded(c, n, now, acts, d, h, 60);
  }
}
