/** When the skip counter lets the marketing lane be read, and how the interleaved protocol relates
    to the sequential queue object. */
module LaneFairness {
  import opened Common
  import opened Lanes
  import opened LaneProtocol
  import Arithmetic

  // ---- the lane list of the consumer loop ----

  function ConsumerConfig(ratio: int, maxAttempts: int, racy: bool): Config {
    Config([Otp, Transactional, Marketing], ratio, maxAttempts, racy)
  }

  predicate IsConsumer(c: Config) { c.lanes == [Otp, Transactional, Marketing] }

  /** Between the transactional lane's reset of the counter and the increment for marketing. */
  predicate BeforeMarketing(w: Worker) {
    || (w.Reading? && w.i == 1) || (w.Discarding? && w.i == 1) || (w.AtLane? && w.i == 2)
    || (w.Skipping? && w.i == 2)
  }

  predicate NotInMarketing(w: Worker) {
    && ((w.Reading? || w.Discarding? || w.Resetting?) ==> w.i <= 1)
    && (w.Skipping? ==> w.i == 2) && !w.Loaded?
  }

  /** The counter and the workers that may still increment it never exceed the number of workers. */
  ghost predicate Starved(s: State, n: nat) {
    && |s.workers| == n
    && s.streams.skips + CountWhere(s.workers, BeforeMarketing) <= n
    && (forall w :: 0 <= w < n ==> NotInMarketing(s.workers[w]))
    && Cursor(s.streams, Marketing) == 0
    && true !in s.gates
  }

  lemma StarvedMove(s: State, t: State, n: nat, w: nat)
    requires Starved(s, n) && w < n
    requires |t.workers| == n && t.workers == s.workers[w := t.workers[w]] && NotInMarketing(t.workers[w])
    requires
      var before, after := Bit(BeforeMarketing(s.workers[w])), Bit(BeforeMarketing(t.workers[w]));
      t.streams.skips == 0 || t.streams.skips + after <= s.streams.skips + before
    requires Cursor(t.streams, Marketing) == 0 && true !in t.gates
    ensures Starved(t, n)
  {
    CountUpdate(s.workers, w, t.workers[w], BeforeMarketing);
  }

  lemma StarvedGate(c: Config, s: State, n: nat, w: nat, i: nat)
    requires IsConsumer(c) && n <= c.ratio && Starved(s, n) && w < n && s.workers[w] == AtLane(i)
    ensures Starved(DoGate(c, s, w, i), n)
  {
    WaitersBound(s.workers, w);
    StarvedMove(s, DoGate(c, s, w, i), n, w);
  }

  lemma StarvedRead(c: Config, s: State, n: nat, w: nat, i: nat, ok: bool)
    requires IsConsumer(c) && Starved(s, n) && w < n && s.workers[w] == Reading(i)
    ensures Starved(DoRead(c, s, w, i, ok), n)
  {
    assert NotInMarketing(s.workers[w]);
    StarvedMove(s, DoRead(c, s, w, i, ok), n, w);
  }

  lemma StarvedElse(c: Config, s: State, n: nat, w: nat, m: Move)
    requires !c.racy && Starved(s, n) && w < n
    requires !(m.PassGate? && s.workers[w].AtLane?) && !(m.Read? && s.workers[w].Reading?)
    ensures Starved(WorkerStep(c, s, w, m), n)
  {
    hide CountWhere;
    var t := WorkerStep(c, s, w, m);
    assert NotInMarketing(s.workers[w]);
    StarvedMove(s, t, n, w);
  }

  lemma StarvedStep(c: Config, s: State, n: nat, a: Action)
    requires IsConsumer(c) && !c.racy && n <= c.ratio && Starved(s, n)
    ensures Starved(Step(c, s, a), n)
  {
    hide WorkerStep, DoGate, DoRead;
    if a.Act? && a.w < n {
      var worker := s.workers[a.w];
      if a.move.PassGate? && worker.AtLane? {
        StarvedGate(c, s, n, a.w, worker.i);
        GateMove(c, s, a.w, worker.i);
      } else if a.move.Read? && worker.Reading? {
        StarvedRead(c, s, n, a.w, worker.i, a.move.ok);
        ReadMove(c, s, a.w, worker.i, a.move.ok);
      } else {
        StarvedElse(c, s, n, a.w, a.move);
      }
    }
  }

  lemma GateMove(c: Config, s: State, w: nat, i: nat)
    requires w < |s.workers| && s.workers[w] == AtLane(i)
    ensures WorkerStep(c, s, w, PassGate) == DoGate(c, s, w, i)
  {
  }

  lemma ReadMove(c: Config, s: State, w: nat, i: nat, ok: bool)
    requires w < |s.workers| && s.workers[w] == Reading(i)
    ensures WorkerStep(c, s, w, Read(ok)) == DoRead(c, s, w, i, ok)
  {
  }

  lemma WaitersBound(ws: seq<Worker>, w: nat)
    requires w < |ws|
    ensures Bit(BeforeMarketing(ws[w])) <= CountWhere(ws, BeforeMarketing)
  {
    CountUpdate(ws, w, Idle, BeforeMarketing);
  }

  /** With no more workers than the anti-starvation ratio, the consumer loop never reads the marketing
      lane, in any interleaving, as long as increments of the counter are atomic: every test of the
      counter skips it. */
  lemma {:induction false} MarketingIsStarved(n: nat, ratio: int, maxAttempts: int, acts: seq<Action>)
    requires n <= ratio
    ensures Starved(Run(ConsumerConfig(ratio, maxAttempts, false), Init(n), acts), n)
  {
    if acts == [] {
      CountNone(Init(n).workers, BeforeMarketing);
    } else {
      hide Starved, Step;
      MarketingIsStarved(n, ratio, maxAttempts, acts[..|acts| - 1]);
      var c := ConsumerConfig(ratio, maxAttempts, false);
      StarvedStep(c, Run(c, Init(n), acts[..|acts| - 1]), n, acts[|acts| - 1]);
    }
  }

  // ---- runs that get there ----

  ghost predicate Reachable(c: Config, n: nat, s: State) {
    exists acts :: Run(c, Init(n), acts) == s
  }

  /** One step with a known result. */
  lemma Follow(c: Config, n: nat, s: State, a: Action, expected: State) returns (t: State)
    requires Reachable(c, n, s) && Step(c, s, a) == expected
    ensures Reachable(c, n, t) && t == expected
  {
    hide Step;
    var acts :| Run(c, Init(n), acts) == s;
    TakeOfAppend(acts, a);
    assert Run(c, Init(n), acts + [a]) == expected;
    t := expected;
  }

  lemma ReachInit(c: Config, n: nat)
    ensures Reachable(c, n, Init(n))
  {
    assert Run(c, Init(n), []) == Init(n);
  }

  /** Only the marketing lane has an entry, and it has not been read. */
  predicate OnlyMarketing(s: State) {
    && Cursor(s.streams, Otp) == |Log(s.streams, Otp)|
    && Cursor(s.streams, Transactional) == |Log(s.streams, Transactional)|
    && Cursor(s.streams, Marketing) == 0 && |Log(s.streams, Marketing)| >= 1
  }

  lemma OneEntry(c: Config, n: nat) returns (s: State)
    ensures Reachable(c, n, s) && OnlyMarketing(s) && s.workers == Init(n).workers && s.streams.skips == 0
  {
    hide Reachable;
    ReachInit(c, n);
    var u := XAdd(EMPTY_STREAMS, Marketing, Undecodable);
    s := Follow(c, n, Init(n), Append(Marketing, Undecodable), Init(n).(streams := u));
  }

  /** The counter of `s`, set to `skips`. */
  function WithSkips(s: State, skips: int): State {
    s.(streams := s.streams.(skips := skips))
  }

  lemma SkipsApart(s: State, skips: int)
    requires OnlyMarketing(s)
    ensures OnlyMarketing(WithSkips(s, skips))
  {
  }

  lemma NothingToRead(s: State, lane: Lane)
    requires Cursor(s.streams, lane) == |Log(s.streams, lane)|
    ensures XReadGroup(s.streams, lane) == (s.streams, None)
  {
  }

  /** An idle worker passes the two empty lanes, resetting the counter on its way. */
  lemma ComeRound(c: Config, n: nat, s: State, w: nat) returns (t: State)
    requires IsConsumer(c) && Reachable(c, n, s) && OnlyMarketing(s) && w < |s.workers| && s.workers[w] == Idle
    ensures Reachable(c, n, t) && t == Become(WithSkips(s, 0), w, AtLane(2))
  {
    hide Reachable, OnlyMarketing, XReadGroup;
    assert c.lanes[0] == Otp && c.lanes[1] == Transactional;
    t := Follow(c, n, s, Act(w, Begin), Become(s, w, AtLane(0)));
    t := Follow(c, n, t, Act(w, PassGate), Become(s, w, Reading(0)));
    EmptyLanes(s);
    t := Follow(c, n, t, Act(w, Read(true)), Become(s, w, AtLane(1)));
    t := Follow(c, n, t, Act(w, PassGate), Become(s, w, Resetting(1)));
    var z := WithSkips(s, 0);
    SkipsApart(s, 0);
    EmptyLanes(z);
    t := Follow(c, n, t, Act(w, Reset), Become(z, w, Reading(1)));
    t := Follow(c, n, t, Act(w, Read(true)), Become(z, w, AtLane(2)));
  }

  lemma EmptyLanes(s: State)
    requires OnlyMarketing(s)
    ensures XReadGroup(s.streams, Otp) == (s.streams, None)
    ensures XReadGroup(s.streams, Transactional) == (s.streams, None)
  {
    NothingToRead(s, Otp);
    NothingToRead(s, Transactional);
  }

  /** A test that skips. */
  lemma TestAndSkip(c: Config, n: nat, s: State, w: nat) returns (t: State)
    requires IsConsumer(c) && Reachable(c, n, s) && w < |s.workers| && s.workers[w] == AtLane(2)
    requires s.streams.skips < c.ratio
    ensures Reachable(c, n, t) && t == Become(s.(gates := s.gates + [false]), w, Skipping(2))
  {
    hide Reachable;
    assert c.lanes[2] == Marketing;
    t := Follow(c, n, s, Act(w, PassGate), Become(s.(gates := s.gates + [false]), w, Skipping(2)));
  }

  /** A test that passes leads to a read of the lane. */
  lemma TestAndRead(c: Config, n: nat, s: State, w: nat) returns (t: State)
    requires IsConsumer(c) && Reachable(c, n, s) && OnlyMarketing(s) && w < |s.workers| && s.workers[w] == AtLane(2)
    requires s.streams.skips >= c.ratio
    ensures Reachable(c, n, t) && Cursor(t.streams, Marketing) == 1
  {
    hide Reachable;
    assert c.lanes[2] == Marketing;
    var u := s.(gates := s.gates + [true]);
    t := Follow(c, n, s, Act(w, PassGate), Become(u, w, Resetting(2)));
    t := Follow(c, n, t, Act(w, Reset), Become(WithSkips(u, 0), w, Reading(2)));
    t := Follow(c, n, t, Act(w, Read(true)), DoRead(c, t, w, 2, true));
  }

  /** Some run of the consumer loop reads the marketing lane. */
  ghost predicate Served(c: Config, n: nat) {
    exists acts :: Cursor(Run(c, Init(n), acts).streams, Marketing) > 0
  }

  lemma ReachedServed(c: Config, n: nat, s: State)
    requires Reachable(c, n, s) && Cursor(s.streams, Marketing) > 0
    ensures Served(c, n)
  {
    var acts :| Run(c, Init(n), acts) == s;
    assert Cursor(Run(c, Init(n), acts).streams, Marketing) > 0;
  }

  // ---- atomic increments: one worker more than the ratio is enough ----

  /** The workers from `j` to `k` are about to test the counter; those below have skipped and counted. */
  ghost predicate Lined(s: State, n: nat, k: nat, j: nat) {
    && |s.workers| == n && s.streams.skips == j && OnlyMarketing(s)
    && forall w :: 0 <= w < n ==> s.workers[w] == if j <= w < k then AtLane(2) else if w < j then AtLane(3) else Idle
  }

  lemma {:induction false} LineUp(c: Config, n: nat, k: nat) returns (s: State)
    requires IsConsumer(c) && k <= n
    ensures Reachable(c, n, s) && Lined(s, n, k, 0)
  {
    hide Reachable, OnlyMarketing;
    if k == 0 {
      s := OneEntry(c, n);
    } else {
      var before := LineUp(c, n, k - 1);
      s := ComeRound(c, n, before, k - 1);
      SkipsApart(before, 0);
      MarketingApart(WithSkips(before, 0), s);
    }
  }

  lemma MarketingApart(s: State, t: State)
    requires OnlyMarketing(s) && t.streams.log == s.streams.log && t.streams.cursor == s.streams.cursor
    ensures OnlyMarketing(t)
  {
  }

  lemma {:induction false} SkipInTurn(c: Config, n: nat, k: nat, j: nat) returns (s: State)
    requires IsConsumer(c) && !c.racy && j <= k <= n && j <= Max(c.ratio, 0)
    ensures Reachable(c, n, s) && Lined(s, n, k, j)
  {
    hide Reachable, OnlyMarketing;
    if j == 0 {
      s := LineUp(c, n, k);
    } else {
      var before := SkipInTurn(c, n, k, j - 1);
      var skipping := TestAndSkip(c, n, before, j - 1);
      s := Follow(c, n, skipping, Act(j - 1, Count), SetSkips(skipping, j - 1, j, AtLane(3)));
      MarketingApart(before, s);
    }
  }

  /** The exact condition with atomic increments: some run of the consumer loop reads the marketing lane if
      and only if there are more workers than the anti-starvation ratio. */
  lemma MarketingServedIff(n: nat, ratio: int, maxAttempts: int)
    requires n >= 1
    ensures Served(ConsumerConfig(ratio, maxAttempts, false), n) <==> n > ratio
  {
    hide Reachable, OnlyMarketing;
    var c := ConsumerConfig(ratio, maxAttempts, false);
    if n > ratio {
      var r := Max(ratio, 0);
      var s := SkipInTurn(c, n, r + 1, r);
      var t := TestAndRead(c, n, s, r);
      ReachedServed(c, n, t);
    } else {
      forall acts ensures Cursor(Run(c, Init(n), acts).streams, Marketing) == 0 {
        MarketingIsStarved(n, ratio, maxAttempts, acts);
      }
    }
  }

  // ---- loads and stores apart: two workers are enough ----

  /** One of the first two workers has loaded `v` and not stored yet; the other is idle. */
  ghost predicate Ratchet(s: State, n: nat, a: nat, v: int) {
    && |s.workers| == n && a < 2 <= n && OnlyMarketing(s)
    && s.workers[a] == Loaded(2, v) && s.workers[1 - a] == Idle
  }

  /** While one worker comes round, resetting the counter, the other stores its stale value on top. */
  lemma StoreOnTop(c: Config, n: nat, s: State, a: nat, v: int) returns (t: State)
    requires IsConsumer(c) && c.racy && Reachable(c, n, s) && Ratchet(s, n, a, v)
    ensures Reachable(c, n, t) && |t.workers| == n && OnlyMarketing(t)
    ensures t.workers[1 - a] == AtLane(2) && t.workers[a] == Idle && t.streams.skips == v + 1
  {
    hide Reachable, OnlyMarketing;
    var b := 1 - a;
    t := ComeRound(c, n, s, b);
    t := Follow(c, n, t, Act(a, Store), SetSkips(t, a, v + 1, AtLane(3)));
    t := Follow(c, n, t, Act(a, PassGate), Become(t, a, Idle));
    MarketingApart(s, t);
  }

  lemma {:induction false} ClickOn(c: Config, n: nat, s: State, a: nat, v: int)
    requires IsConsumer(c) && c.racy && Reachable(c, n, s) && Ratchet(s, n, a, v)
    ensures Served(c, n)
    decreases c.ratio - v
  {
    hide Reachable, OnlyMarketing, Served;
    var b := 1 - a;
    var t := StoreOnTop(c, n, s, a, v);
    if v + 1 < c.ratio {
      t := LoadNext(c, n, t, b, v + 1);
      ClickOn(c, n, t, b, v + 1);
    } else {
      t := TestAndRead(c, n, t, b);
      ReachedServed(c, n, t);
    }
  }

  lemma LoadNext(c: Config, n: nat, s: State, b: nat, v: int) returns (t: State)
    requires IsConsumer(c) && c.racy && Reachable(c, n, s) && |s.workers| == n && b < 2 <= n && OnlyMarketing(s)
    requires s.workers[b] == AtLane(2) && s.workers[1 - b] == Idle && s.streams.skips == v < c.ratio
    ensures Reachable(c, n, t) && Ratchet(t, n, b, v)
  {
    hide Reachable, OnlyMarketing;
    t := TestAndSkip(c, n, s, b);
    t := Follow(c, n, t, Act(b, Load), Become(t, b, Loaded(2, v)));
    MarketingApart(s, t);
  }

  /** A single worker tests the counter only after its own reset. */
  ghost predicate Alone(s: State) {
    && |s.workers| == 1 && Cursor(s.streams, Marketing) == 0
    && var w := s.workers[0];
      && ((w.Reading? || w.Discarding? || w.Resetting?) ==> w.i <= 1)
      && ((w.Skipping? || w.Loaded?) ==> w.i == 2)
      && ((w.Reading? && w.i == 1) || (w.Discarding? && w.i == 1) || (w.AtLane? && w.i == 2) ==> s.streams.skips == 0)
  }

  lemma AloneGate(c: Config, s: State, i: nat)
    requires IsConsumer(c) && c.ratio >= 1 && Alone(s) && s.workers[0] == AtLane(i)
    ensures Alone(DoGate(c, s, 0, i))
  {
  }

  lemma AloneRead(c: Config, s: State, i: nat, ok: bool)
    requires IsConsumer(c) && Alone(s) && s.workers[0] == Reading(i)
    ensures Alone(DoRead(c, s, 0, i, ok))
  {
  }

  lemma AloneElse(c: Config, s: State, m: Move)
    requires Alone(s)
    requires !(m.PassGate? && s.workers[0].AtLane?) && !(m.Read? && s.workers[0].Reading?)
    ensures Alone(WorkerStep(c, s, 0, m))
  {
  }

  lemma AloneStep(c: Config, s: State, a: Action)
    requires IsConsumer(c) && c.ratio >= 1 && Alone(s)
    ensures Alone(Step(c, s, a))
  {
    hide WorkerStep, DoGate, DoRead;
    if a.Act? && a.w == 0 {
      var worker := s.workers[0];
      if a.move.PassGate? && worker.AtLane? {
        AloneGate(c, s, worker.i);
        GateMove(c, s, 0, worker.i);
      } else if a.move.Read? && worker.Reading? {
        AloneRead(c, s, worker.i, a.move.ok);
        ReadMove(c, s, 0, worker.i, a.move.ok);
      } else {
        AloneElse(c, s, a.move);
      }
    }
  }

  lemma {:induction false} OneWorkerStarves(c: Config, acts: seq<Action>)
    requires IsConsumer(c) && c.ratio >= 1
    ensures Alone(Run(c, Init(1), acts))
  {
    if acts != [] {
      hide Alone, Step;
      OneWorkerStarves(c, acts[..|acts| - 1]);
      AloneStep(c, Run(c, Init(1), acts[..|acts| - 1]), acts[|acts| - 1]);
    }
  }

  /** The exact condition with loads and stores apart: the lane can be read if and only if there are two
      workers, however high the ratio, or the ratio is not positive. */
  lemma RacyMarketingServedIff(n: nat, ratio: int, maxAttempts: int)
    requires n >= 1
    ensures Served(ConsumerConfig(ratio, maxAttempts, true), n) <==> n >= 2 || ratio <= 0
  {
    hide Reachable, OnlyMarketing, Alone;
    var c := ConsumerConfig(ratio, maxAttempts, true);
    if n == 1 && ratio >= 1 {
      forall acts ensures Cursor(Run(c, Init(n), acts).streams, Marketing) == 0 {
        OneWorkerStarves(c, acts);
        AloneMeans(Run(c, Init(n), acts));
      }
    } else {
      var s := OneEntry(c, n);
      var t := ComeRound(c, n, s, 0);
      SkipsApart(s, 0);
      MarketingApart(WithSkips(s, 0), t);
      if ratio <= 0 {
        t := TestAndRead(c, n, t, 0);
        ReachedServed(c, n, t);
      } else {
        t := LoadNext(c, n, t, 0, 0);
        ClickOn(c, n, t, 0, 0);
      }
    }
  }

  lemma AloneMeans(s: State)
    requires Alone(s)
    ensures Cursor(s.streams, Marketing) == 0
  {
  }

  // ---- one caller without the transactional lane ----

  /** `ratio` skips, then one read, and the counter in step with them, whatever step the worker is at. */
  ghost predicate Cadence(s: State, ratio: int) {
    var period, g := Max(ratio, 0) + 1, |s.gates|;
    && |s.workers| == 1
    && (forall i :: 0 <= i < g ==> (s.gates[i] <==> i % period == period - 1))
    && match s.workers[0]
       case Skipping(_) => g >= 1 && !s.gates[g - 1] && s.streams.skips == (g - 1) % period
       case Loaded(_, v) => g >= 1 && !s.gates[g - 1] && v == (g - 1) % period
       case Resetting(_) => g >= 1 && s.gates[g - 1]
       case _ => s.streams.skips == g % period
  }

  predicate OtpAndMarketing(c: Config) {
    forall i :: 0 <= i < |c.lanes| ==> c.lanes[i] == Otp || c.lanes[i] == Marketing
  }

  lemma CadenceGate(c: Config, s: State, i: nat)
    requires OtpAndMarketing(c) && Cadence(s, c.ratio) && s.workers[0] == AtLane(i)
    ensures Cadence(DoGate(c, s, 0, i), c.ratio)
  {
    var period, g := Max(c.ratio, 0) + 1, |s.gates|;
    assert 0 <= g % period < period;
  }

  lemma CadenceElse(c: Config, s: State, m: Move)
    requires Cadence(s, c.ratio) && !(m.PassGate? && s.workers[0].AtLane?) && !m.Read?
    ensures Cadence(WorkerStep(c, s, 0, m), c.ratio)
  {
    if |s.gates| >= 1 {
      Arithmetic.NextMod(|s.gates| - 1, Max(c.ratio, 0) + 1);
    }
  }

  lemma CadenceRead(c: Config, s: State, i: nat, ok: bool)
    requires Cadence(s, c.ratio) && s.workers[0] == Reading(i)
    ensures Cadence(DoRead(c, s, 0, i, ok), c.ratio)
  {
  }

  lemma CadenceStep(c: Config, s: State, a: Action)
    requires OtpAndMarketing(c) && Cadence(s, c.ratio)
    ensures Cadence(Step(c, s, a), c.ratio)
  {
    hide WorkerStep, DoGate, DoRead;
    if a.Act? && a.w == 0 {
      var worker := s.workers[0];
      if a.move.PassGate? && worker.AtLane? {
        CadenceGate(c, s, worker.i);
        GateMove(c, s, 0, worker.i);
      } else if a.move.Read? && worker.Reading? {
        CadenceRead(c, s, worker.i, a.move.ok);
        ReadMove(c, s, 0, worker.i, a.move.ok);
      } else if a.move.Read? {
        NoReadMove(c, s, 0, a.move.ok);
      } else {
        CadenceElse(c, s, a.move);
      }
    }
  }

  lemma NoReadMove(c: Config, s: State, w: nat, ok: bool)
    requires w < |s.workers| && !s.workers[w].Reading?
    ensures WorkerStep(c, s, w, Read(ok)) == s
  {
  }

  /** For one caller, on a lane list of OTP and marketing lanes, the tests of the counter follow a fixed
      cadence: `ratio` skips, then one read. */
  lemma {:induction false} MarketingCadence(c: Config, acts: seq<Action>)
    requires OtpAndMarketing(c)
    ensures Cadence(Run(c, Init(1), acts), c.ratio)
  {
    if acts != [] {
      hide Cadence, Step;
      MarketingCadence(c, acts[..|acts| - 1]);
      CadenceStep(c, Run(c, Init(1), acts[..|acts| - 1]), acts[|acts| - 1]);
    }
  }

  // ---- the sequential object is the protocol with one worker left alone ----

  lemma {:induction false} RunConcat(c: Config, s: State, first: seq<Action>, second: seq<Action>)
    ensures Run(c, s, first + second) == Run(c, Run(c, s, first), second)
  {
    hide Step;
    if second == [] {
      assert first + second == first;
    } else {
      RunConcat(c, s, first, second[..|second| - 1]);
      assert (first + second)[..|first + second| - 1] == first + second[..|second| - 1];
    }
  }

  lemma Extend(c: Config, s: State, acts: seq<Action>, a: Action) returns (more: seq<Action>)
    ensures more == acts + [a] && Run(c, s, more) == Step(c, Run(c, s, acts), a)
  {
    more := acts + [a];
    TakeOfAppend(acts, a);
  }

  lemma RunNothing(c: Config, s: State)
    ensures Run(c, s, []) == s
  {
  }

  ghost predicate OnlyBy(acts: seq<Action>, w: nat) {
    forall i :: 0 <= i < |acts| ==> acts[i].Act? && acts[i].w == w
  }

  /** Where a worker stands once it has visited lane `i` undisturbed. */
  function AfterVisit(o: Outcome, i: nat): Worker {
    match o
    case Delivered(ref, msg) => Holding(ref, msg)
    case ReadError => Idle
    case _ => AtLane(i + 1)
  }

  /** Same streams but for the counter, and one worker moved. */
  predicate Counted(s: State, t: State, w: nat, skips: int, worker: Worker)
    requires w < |s.workers|
  {
    t.streams == s.streams.(skips := skips) && t.workers == s.workers[w := worker]
  }

  lemma TestStep(c: Config, s: State, w: nat, i: nat)
    requires w < |s.workers| && s.workers[w] == AtLane(i) && i < |c.lanes|
    ensures var t, lane := Step(c, s, Act(w, PassGate)), c.lanes[i];
      Counted(s, t, w, s.streams.skips,
              if lane == Marketing && s.streams.skips < c.ratio then Skipping(i)
              else if lane != Otp then Resetting(i) else Reading(i))
  {
    assert Step(c, s, Act(w, PassGate)) == DoGate(c, s, w, i);
  }

  lemma CountSteps(c: Config, s: State, w: nat, i: nat)
    requires w < |s.workers|
    ensures s.workers[w] == Skipping(i) && !c.racy ==>
      Counted(s, Step(c, s, Act(w, Count)), w, s.streams.skips + 1, AtLane(i + 1))
    ensures s.workers[w] == Skipping(i) && c.racy ==>
      Counted(s, Step(c, s, Act(w, Load)), w, s.streams.skips, Loaded(i, s.streams.skips))
    ensures forall v :: s.workers[w] == Loaded(i, v) ==>
      Counted(s, Step(c, s, Act(w, Store)), w, v + 1, AtLane(i + 1))
    ensures s.workers[w] == Resetting(i) ==> Counted(s, Step(c, s, Act(w, Reset)), w, 0, Reading(i))
  {
  }

  /** A whole visit to the counter is the object's gate. */
  lemma GateIsRun(c: Config, s: State, w: nat, i: nat) returns (acts: seq<Action>)
    requires w < |s.workers| && s.workers[w] == AtLane(i) && i < |c.lanes|
    ensures OnlyBy(acts, w)
    ensures var t, (u, skip) := Run(c, s, acts), Gate(s.streams, c.ratio, c.lanes[i]);
      t.streams == u && t.workers == s.workers[w := if skip then AtLane(i + 1) else Reading(i)]
  {
    hide Step, Run;
    RunNothing(c, s);
    acts := Extend(c, s, [], Act(w, PassGate));
    TestStep(c, s, w, i);
    var t := Run(c, s, acts);
    CountSteps(c, t, w, i);
    if t.workers[w].Skipping? {
      acts := Extend(c, s, acts, Act(w, if c.racy then Load else Count));
      if c.racy {
        CountSteps(c, Run(c, s, acts), w, i);
        acts := Extend(c, s, acts, Act(w, Store));
      }
    } else if t.workers[w].Resetting? {
      acts := Extend(c, s, acts, Act(w, Reset));
    }
  }

  /** Where a worker stands right after the read of lane `i`, which has handed out `got`. */
  function AfterRead(u: Streams, got: Option<Ref>, i: nat): Worker {
    match got
    case None => AtLane(i + 1)
    case Some(ref) =>
      match EntryOf(u, ref)
      case Some(Decoded(msg)) => Holding(ref, msg)
      case _ => Discarding(i, ref)
  }

  lemma ReadStep(c: Config, s: State, w: nat, i: nat)
    requires w < |s.workers| && s.workers[w] == Reading(i) && i < |c.lanes|
    ensures var t, lane := Step(c, s, Act(w, Read(true))), c.lanes[i];
      if lane.Unknown? then t == Become(s, w, Idle)
      else
        var (u, got) := XReadGroup(s.streams, lane);
        t.streams == u && t.workers == s.workers[w := AfterRead(u, got, i)]
  {
    assert Step(c, s, Act(w, Read(true))) == DoRead(c, s, w, i, true);
  }

  lemma DiscardStep(c: Config, s: State, w: nat, i: nat, ref: Ref)
    requires w < |s.workers| && s.workers[w] == Discarding(i, ref)
    ensures var t := Step(c, s, Act(w, Discard(true)));
      t.streams == XAck(s.streams, ref) && t.workers == s.workers[w := AtLane(i + 1)]
  {
    assert Step(c, s, Act(w, Discard(true))) == DoAck(s, w, ref, true, AtLane(i + 1));
  }

  lemma VisitIsRun(c: Config, s: State, w: nat, i: nat) returns (acts: seq<Action>)
    requires w < |s.workers| && i < |c.lanes| && s.workers[w] == AtLane(i)
    ensures OnlyBy(acts, w)
    ensures var (u, o) := Visit(s.streams, c.ratio, c.lanes[i]);
      Run(c, s, acts).streams == u && Run(c, s, acts).workers == s.workers[w := AfterVisit(o, i)]
  {
    hide Step, Run, XAck;
    var (u, o) := Visit(s.streams, c.ratio, c.lanes[i]);
    acts := GateIsRun(c, s, w, i);
    if !o.Skipped? {
      var s1 := Run(c, s, acts);
      acts := Extend(c, s, acts, Act(w, Read(true)));
      ReadStep(c, s1, w, i);
      if o.Discarded? {
        DiscardStep(c, Run(c, s, acts), w, i, o.ref);
        acts := Extend(c, s, acts, Act(w, Discard(true)));
      }
    }
  }

  lemma {:induction false} PassIsRun(c: Config, s: State, w: nat, k: nat) returns (acts: seq<Action>)
    requires w < |s.workers| && s.workers[w] == AtLane(0) && k <= |c.lanes|
    requires Reaches(s.streams, c.ratio, c.lanes, k)
    ensures OnlyBy(acts, w)
    ensures Run(c, s, acts).streams == After(s.streams, c.ratio, c.lanes, k)
    ensures Run(c, s, acts).workers == s.workers[w := AtLane(k)]
  {
    hide Step;
    if k == 0 {
      acts := [];
    } else {
      var before := PassIsRun(c, s, w, k - 1);
      var t := Run(c, s, before);
      var last := VisitIsRun(c, t, w, k - 1);
      RunConcat(c, s, before, last);
      acts := before + last;
      assert PassesOver(OutcomeAt(s.streams, c.ratio, c.lanes, k - 1));
      assert AfterVisit(OutcomeAt(s.streams, c.ratio, c.lanes, k - 1), k - 1) == AtLane(k);
      assert Run(c, s, acts).workers == t.workers[w := AtLane(k)];
    }
  }

  lemma EndSteps(c: Config, s: State, w: nat)
    requires w < |s.workers|
    ensures s.workers[w] == Idle ==> Step(c, s, Act(w, Begin)) == Become(s, w, AtLane(0))
    ensures s.workers[w] == AtLane(|c.lanes|) ==> Step(c, s, Act(w, PassGate)) == Become(s, w, Idle)
  {
  }

  /** Every dequeue the sequential object may perform is a run of the protocol in which one idle worker
      moves alone: same streams, and the worker ends holding exactly the entry that was returned. */
  lemma {:induction false} DequeueIsRun(c: Config, s: State, w: nat, k: nat, u: Streams, r: DequeueResult)
    returns (acts: seq<Action>)
    requires w < |s.workers| && s.workers[w] == Idle
    requires IsDequeue(s.streams, c.ratio, c.lanes, k, u, r)
    ensures OnlyBy(acts, w)
    ensures Run(c, s, acts).streams == u
    ensures Run(c, s, acts).workers == s.workers[w := if r.Got? then Holding(r.ref, r.msg) else Idle]
  {
    hide Step, Run, XReadGroup, XAck, Gate, Visit;
    RunNothing(c, s);
    EndSteps(c, s, w);
    var begin := Extend(c, s, [], Act(w, Begin));
    var s0 := Run(c, s, begin);
    var pass := PassIsRun(c, s0, w, k);
    RunConcat(c, s, begin, pass);
    acts := begin + pass;
    var t := Run(c, s, acts);
    if r.Empty? {
      EndSteps(c, t, w);
      acts := Extend(c, s, acts, Act(w, PassGate));
    } else {
      var last := VisitIsRun(c, t, w, k);
      RunConcat(c, s, acts, last);
      acts := acts + last;
    }
  }
}
