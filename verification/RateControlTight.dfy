/** The bounds on the device counters are the best possible ones, for every pair of limits. */
module RateControlTight {
  import opened Common
  import opened Redis
  import opened RateControl
  import opened RateControlHour

  const DEVICE := "d"

  ghost predicate Reachable(c: Limits, n: nat, start: nat, s: State) {
    exists acts :: Run(c, Init(n, start), acts) == s
  }

  lemma ReachStep(c: Limits, n: nat, start: nat, s: State, a: Action)
    requires Reachable(c, n, start, s)
    ensures Reachable(c, n, start, Step(c, s, a))
  {
    hide Step;
    var acts :| Run(c, Init(n, start), acts) == s;
    TakeOfAppend(acts, a);
    assert Run(c, Init(n, start), acts + [a]) == Step(c, s, a);
  }

  lemma ReachInit(c: Limits, n: nat, start: nat)
    ensures Reachable(c, n, start, Init(n, start))
  {
    assert Run(c, Init(n, start), []) == Init(n, start);
  }

  predicate Usable(c: Limits) { c.perMinute >= 1 && c.perHour >= 1 }

  /** In a reachable state the server counts a current window exactly, and a future window is empty. */
  lemma CountsAreTotals(c: Limits, n: nat, start: nat, s: State, k: Key)
    requires Usable(c) && Reachable(c, n, start, s)
    ensures Window(k.kind, s.now) == k.window ==> Count(s.store, k, s.now) == Total(s, k)
    ensures Window(k.kind, s.now) < k.window ==> Total(s, k) == 0
  {
    var acts :| Run(c, Init(n, start), acts) == s;
    hide Run;
    RunKeepsInv(c, n, start, acts);
    assert Kept(s, k);
    if Window(k.kind, s.now) == k.window {
      KeptIsCounted(s, k);
    }
  }

  // ---- single workers ----

  /** In minute `m` and hour `h`: the device's counters stand at `a` and `b`. */
  predicate At(s: State, m: int, h: int, a: nat, b: nat) {
    && Window(PerMinute, s.now) == m && Window(PerHour, s.now) == h
    && Total(s, MinuteKey(DEVICE, m)) == a && Total(s, HourKey(DEVICE, h)) == b
  }

  /** An idle worker passes the check. */
  lemma PassOne(c: Limits, n: nat, start: nat, s: State, w: nat, m: int, h: int, a: nat, b: nat) returns (t: State)
    requires Usable(c) && Reachable(c, n, start, s) && At(s, m, h, a, b) && a < c.perMinute && b < c.perHour
    requires w < |s.workers| && s.workers[w] == Idle
    ensures Reachable(c, n, start, t) && t == Become(s, w, Passed(DEVICE))
  {
    hide Reachable;
    CountsAreTotals(c, n, start, s, MinuteKey(DEVICE, m));
    CountsAreTotals(c, n, start, s, HourKey(DEVICE, h));
    t := Follow(c, n, start, s, Act(w, Check(DEVICE)), Become(s, w, MinuteNamed(DEVICE, m)));
    t := Follow(c, n, start, t, Act(w, Next), Become(s, w, BothNamed(DEVICE, m, h)));
    t := Follow(c, n, start, t, Act(w, Next), Become(s, w, MinuteRead(DEVICE, m, h, true)));
    t := Follow(c, n, start, t, Act(w, Next), Become(s, w, Passed(DEVICE)));
  }

  /** One step with a known result. */
  lemma Follow(c: Limits, n: nat, start: nat, s: State, a: Action, expected: State) returns (t: State)
    requires Reachable(c, n, start, s) && Step(c, s, a) == expected
    ensures Reachable(c, n, start, t) && t == expected
  {
    ReachStep(c, n, start, s, a);
    t := expected;
  }

  /** A worker that passed sends and names both keys. */
  lemma SendOne(c: Limits, n: nat, start: nat, s: State, w: nat) returns (t: State)
    requires Reachable(c, n, start, s) && w < |s.workers| && s.workers[w] == Passed(DEVICE)
    ensures Reachable(c, n, start, t)
    ensures t == Become(s, w, Writing(DEVICE, Window(PerMinute, s.now), Window(PerHour, s.now), 0))
  {
    hide Reachable;
    t := Follow(c, n, start, s, Act(w, Send(true)), Become(s, w, NamingMinute(DEVICE, Window(PerMinute, s.now))));
    t := Follow(c, n, start, t, Act(w, Next),
                Become(s, w, Writing(DEVICE, Window(PerMinute, s.now), Window(PerHour, s.now), 0)));
  }

  /** Both counters of the named windows grow by one. */
  ghost predicate Grown(s: State, t: State, minute: Key, hour: Key, both: bool) {
    && t.now == s.now
    && forall k :: Total(t, k) == Total(s, k) + Bit(k == minute || (both && k == hour))
  }

  /** A worker with its keys named does all four writes. */
  lemma WriteAll(c: Limits, n: nat, start: nat, s: State, w: nat, m: int, h: int) returns (t: State)
    requires Reachable(c, n, start, s) && w < |s.workers| && s.workers[w] == Writing(DEVICE, m, h, 0)
    ensures Reachable(c, n, start, t) && Grown(s, t, MinuteKey(DEVICE, m), HourKey(DEVICE, h), true)
    ensures t.workers == s.workers[w := Idle]
  {
    hide Reachable, Incr, Expire;
    var minute, hour := MinuteKey(DEVICE, m), HourKey(DEVICE, h);
    var s1 := Become(Bump(s, minute), w, Writing(DEVICE, m, h, 1));
    t := Follow(c, n, start, s, Act(w, Next), s1);
    var s2 := Become(Prolong(s1, minute), w, Writing(DEVICE, m, h, 2));
    t := Follow(c, n, start, t, Act(w, Next), s2);
    var s3 := Become(Bump(s2, hour), w, Writing(DEVICE, m, h, 3));
    t := Follow(c, n, start, t, Act(w, Next), s3);
    t := Follow(c, n, start, t, Act(w, Next), Become(Prolong(s3, hour), w, Idle));
    assert t.workers == s.workers[w := Idle];
  }

  /** A worker breaks off after counting the minute. */
  lemma WriteMinuteOnly(c: Limits, n: nat, start: nat, s: State, w: nat, m: int, h: int) returns (t: State)
    requires Reachable(c, n, start, s) && w < |s.workers| && s.workers[w] == Writing(DEVICE, m, h, 0)
    ensures Reachable(c, n, start, t) && Grown(s, t, MinuteKey(DEVICE, m), HourKey(DEVICE, h), false)
    ensures t.workers == s.workers[w := Idle]
  {
    hide Reachable, Incr, Expire;
    var minute := MinuteKey(DEVICE, m);
    var s1 := Become(Bump(s, minute), w, Writing(DEVICE, m, h, 1));
    t := Follow(c, n, start, s, Act(w, Next), s1);
    t := Follow(c, n, start, t, Act(w, Abort), Become(s1, w, Idle));
    assert t.workers == s.workers[w := Idle];
  }

  // ---- all workers ----

  /** The workers from `lo` to `hi` have passed the check, the others are idle. */
  ghost predicate Standing(s: State, n: nat, m: int, h: int, a: nat, b: nat, lo: nat, hi: nat) {
    && At(s, m, h, a, b) && |s.workers| == n && lo <= hi <= n
    && forall w :: 0 <= w < n ==> s.workers[w] == if lo <= w < hi then Passed(DEVICE) else Idle
  }

  ghost predicate Resting(s: State, n: nat, m: int, h: int, a: nat, b: nat) {
    Standing(s, n, m, h, a, b, 0, 0)
  }

  lemma PassNext(c: Limits, n: nat, start: nat, s: State, m: int, h: int, a: nat, b: nat, lo: nat, hi: nat)
      returns (t: State)
    requires Usable(c) && Reachable(c, n, start, s) && Standing(s, n, m, h, a, b, lo, hi)
    requires a < c.perMinute && b < c.perHour && hi < n
    ensures Reachable(c, n, start, t) && Standing(t, n, m, h, a, b, lo, hi + 1)
  {
    hide Reachable;
    t := PassOne(c, n, start, s, hi, m, h, a, b);
  }

  lemma PayNext(c: Limits, n: nat, start: nat, s: State, m: int, h: int, a: nat, b: nat, lo: nat, hi: nat)
      returns (t: State)
    requires Reachable(c, n, start, s) && Standing(s, n, m, h, a, b, lo, hi) && lo < hi
    ensures Reachable(c, n, start, t) && Standing(t, n, m, h, a + 1, b + 1, lo + 1, hi)
  {
    hide Reachable;
    var u := SendOne(c, n, start, s, lo);
    t := WriteAll(c, n, start, u, lo, m, h);
    assert t.workers == s.workers[lo := Idle];
  }

  lemma PayMinuteNext(c: Limits, n: nat, start: nat, s: State, m: int, h: int, a: nat, b: nat, lo: nat, hi: nat)
      returns (t: State)
    requires Reachable(c, n, start, s) && Standing(s, n, m, h, a, b, lo, hi) && lo < hi
    ensures Reachable(c, n, start, t) && Standing(t, n, m, h, a + 1, b, lo + 1, hi)
  {
    hide Reachable;
    var u := SendOne(c, n, start, s, lo);
    t := WriteMinuteOnly(c, n, start, u, lo, m, h);
    assert t.workers == s.workers[lo := Idle];
  }

  lemma AllDone(s: State, n: nat, m: int, h: int, a: nat, b: nat, k: nat)
    requires Standing(s, n, m, h, a, b, k, k)
    ensures Resting(s, n, m, h, a, b)
  {
  }

  /** `k` workers pass, then all of them pay. */
  lemma {:induction false} PassMany(c: Limits, n: nat, start: nat, s: State, m: int, h: int, a: nat, b: nat, k: nat)
      returns (t: State)
    requires Usable(c) && Reachable(c, n, start, s) && Resting(s, n, m, h, a, b)
    requires k <= n && (k > 0 ==> a < c.perMinute && b < c.perHour)
    ensures Reachable(c, n, start, t) && Standing(t, n, m, h, a, b, 0, k)
  {
    hide Reachable, Standing;
    if k == 0 {
      t := s;
    } else {
      t := PassMany(c, n, start, s, m, h, a, b, k - 1);
      t := PassNext(c, n, start, t, m, h, a, b, 0, k - 1);
    }
  }

  lemma {:induction false} PayMany(c: Limits, n: nat, start: nat, s: State, m: int, h: int, a: nat, b: nat, k: nat,
                                   paid: nat)
      returns (t: State)
    requires Reachable(c, n, start, s) && Standing(s, n, m, h, a, b, 0, k) && paid <= k
    ensures Reachable(c, n, start, t) && Standing(t, n, m, h, a + paid, b + paid, paid, k)
  {
    hide Reachable, Standing;
    if paid == 0 {
      t := s;
    } else {
      var done: nat := paid - 1;
      t := PayMany(c, n, start, s, m, h, a, b, k, done);
      t := PayNext(c, n, start, t, m, h, a + done, b + done, done, k);
    }
  }

  /** `k` workers at once, from a minute below its limit. */
  lemma Group(c: Limits, n: nat, start: nat, s: State, m: int, h: int, a: nat, b: nat, k: nat) returns (t: State)
    requires Usable(c) && Reachable(c, n, start, s) && Resting(s, n, m, h, a, b)
    requires k <= n && (k > 0 ==> a < c.perMinute && b < c.perHour)
    ensures Reachable(c, n, start, t) && Resting(t, n, m, h, a + k, b + k)
  {
    hide Reachable, Standing;
    t := PassMany(c, n, start, s, m, h, a, b, k);
    t := PayMany(c, n, start, t, m, h, a, b, k, k);
    AllDone(t, n, m, h, a + k, b + k, k);
  }

  /** One worker alone, `k` times. */
  lemma {:induction false} Singles(c: Limits, n: nat, start: nat, s: State, m: int, h: int, a: nat, b: nat, k: nat)
      returns (t: State)
    requires Usable(c) && n >= 1 && Reachable(c, n, start, s) && Resting(s, n, m, h, a, b)
    requires a + k <= c.perMinute && b + k <= c.perHour
    ensures Reachable(c, n, start, t) && Resting(t, n, m, h, a + k, b + k)
  {
    hide Reachable, Resting;
    if k == 0 {
      t := s;
    } else {
      var before: nat := k - 1;
      t := Singles(c, n, start, s, m, h, a, b, before);
      t := Group(c, n, start, t, m, h, a + before, b + before, 1);
    }
  }

  // ---- the minute counter ----

  /** One worker alone, `k` times, breaking off before the hour is counted. */
  lemma {:induction false} MinuteSingles(c: Limits, n: nat, s: State, h: int, k: nat) returns (t: State)
    requires Usable(c) && n >= 1 && Reachable(c, n, 0, s) && Resting(s, n, 0, h, 0, 0) && k <= c.perMinute
    ensures Reachable(c, n, 0, t) && Resting(t, n, 0, h, k, 0)
  {
    hide Reachable, Standing;
    if k == 0 {
      t := s;
    } else {
      t := MinuteSingles(c, n, s, h, k - 1);
      t := PassMany(c, n, 0, t, 0, h, k - 1, 0, 1);
      t := PayMinuteNext(c, n, 0, t, 0, h, k - 1, 0, 0, 1);
      AllDone(t, n, 0, h, k, 0, 1);
    }
  }

  lemma StartRests(n: nat, start: nat)
    ensures Resting(Init(n, start), n, Window(PerMinute, start), Window(PerHour, start), 0, 0)
  {
  }

  /** For every number of workers and every pair of limits some interleaving drives a minute counter to
      exactly the bound that no interleaving exceeds, even if the hour limit is far below. */
  lemma MinuteBoundIsReached(c: Limits, n: nat) returns (acts: seq<Action>)
    requires n >= 1 && Usable(c)
    ensures Total(Run(c, Init(n, 0), acts), MinuteKey(DEVICE, 0)) == c.perMinute - 1 + n
  {
    hide Run, Resting, Reachable;
    ReachInit(c, n, 0);
    StartRests(n, 0);
    var s := MinuteSingles(c, n, Init(n, 0), 0, c.perMinute - 1);
    var t := Group(c, n, 0, s, 0, 0, c.perMinute - 1, 0, n);
    RestingCounts(t, n, 0, 0, c.perMinute - 1 + n, n);
    acts := Extract(c, n, 0, t);
  }

  lemma RestingCounts(s: State, n: nat, m: int, h: int, a: nat, b: nat)
    requires Resting(s, n, m, h, a, b)
    ensures Total(s, MinuteKey(DEVICE, m)) == a && Total(s, HourKey(DEVICE, h)) == b
  {
  }

  lemma Extract(c: Limits, n: nat, start: nat, s: State) returns (acts: seq<Action>)
    requires Reachable(c, n, start, s)
    ensures Run(c, Init(n, start), acts) == s
  {
    acts :| Run(c, Init(n, start), acts) == s;
  }

  // ---- the hour counter ----

  /** The first `y` of `x` workers have named the last minute before the hour; the others have passed. */
  ghost predicate Naming(s: State, n: nat, x: nat, y: nat) {
    && s.now == 3599 && |s.workers| == n && y <= x <= n
    && forall w :: 0 <= w < n ==>
      s.workers[w] == if w < y then NamingMinute(DEVICE, 59) else if w < x then Passed(DEVICE) else Idle
  }

  /** In the first minute of the hour: the first `z` of them have counted into it. */
  ghost predicate Carrying(s: State, n: nat, x: nat, z: nat) {
    && At(s, 60, 1, 0, z) && |s.workers| == n && z <= x <= n
    && forall w :: 0 <= w < n ==> s.workers[w] == if z <= w < x then NamingMinute(DEVICE, 59) else Idle
  }

  lemma NameNext(c: Limits, n: nat, s: State, x: nat, y: nat) returns (t: State)
    requires Reachable(c, n, 3599, s) && Naming(s, n, x, y) && y < x
    ensures Reachable(c, n, 3599, t) && Naming(t, n, x, y + 1)
  {
    hide Reachable;
    t := Follow(c, n, 3599, s, Act(y, Send(true)), Become(s, y, NamingMinute(DEVICE, 59)));
  }

  lemma {:induction false} NameAll(c: Limits, n: nat, s: State, x: nat, y: nat) returns (t: State)
    requires Reachable(c, n, 3599, s) && Naming(s, n, x, 0) && y <= x
    ensures Reachable(c, n, 3599, t) && Naming(t, n, x, y)
  {
    hide Reachable, Naming;
    if y == 0 {
      t := s;
    } else {
      t := NameAll(c, n, s, x, y - 1);
      t := NameNext(c, n, t, x, y - 1);
    }
  }

  lemma HourBegins(c: Limits, n: nat, s: State, x: nat) returns (t: State)
    requires Usable(c) && Reachable(c, n, 3599, s) && Naming(s, n, x, x)
    ensures Reachable(c, n, 3599, t) && Carrying(t, n, x, 0)
  {
    hide Reachable;
    CountsAreTotals(c, n, 3599, s, MinuteKey(DEVICE, 60));
    CountsAreTotals(c, n, 3599, s, HourKey(DEVICE, 1));
    t := Follow(c, n, 3599, s, Tick(1), s.(now := 3600));
  }

  lemma CarryNext(c: Limits, n: nat, s: State, x: nat, z: nat) returns (t: State)
    requires Reachable(c, n, 3599, s) && Carrying(s, n, x, z) && z < x
    ensures Reachable(c, n, 3599, t) && Carrying(t, n, x, z + 1)
  {
    hide Reachable;
    var u := Follow(c, n, 3599, s, Act(z, Next), Become(s, z, Writing(DEVICE, 59, 1, 0)));
    t := WriteAll(c, n, 3599, u, z, 59, 1);
    assert t.workers == s.workers[z := Idle];
  }

  lemma {:induction false} CarryAll(c: Limits, n: nat, s: State, x: nat, z: nat) returns (t: State)
    requires Reachable(c, n, 3599, s) && Carrying(s, n, x, 0) && z <= x
    ensures Reachable(c, n, 3599, t) && Carrying(t, n, x, z)
  {
    hide Reachable, Carrying;
    if z == 0 {
      t := s;
    } else {
      t := CarryAll(c, n, s, x, z - 1);
      t := CarryNext(c, n, t, x, z - 1);
    }
  }

  lemma StandingIsNaming(s: State, n: nat, x: nat)
    requires Standing(s, n, 59, 0, 0, 0, 0, x) && s.now == 3599
    ensures Naming(s, n, x, 0)
  {
  }

  lemma CarriedRests(s: State, n: nat, x: nat)
    requires Carrying(s, n, x, x)
    ensures Resting(s, n, 60, 1, 0, x)
  {
  }

  lemma {:induction false} PassManyKeepsTime(c: Limits, n: nat, s: State, k: nat) returns (t: State)
    requires Usable(c) && Reachable(c, n, 3599, s) && Resting(s, n, 59, 0, 0, 0) && s.now == 3599 && k <= n
    ensures Reachable(c, n, 3599, t) && Standing(t, n, 59, 0, 0, 0, 0, k) && t.now == 3599
  {
    hide Reachable;
    if k == 0 {
      t := s;
    } else {
      var u := PassManyKeepsTime(c, n, s, k - 1);
      t := PassOne(c, n, 3599, u, k - 1, 59, 0, 0, 0);
    }
  }

  /** `x` workers carry one increment each into the hour. */
  lemma CarryOver(c: Limits, n: nat, x: nat) returns (t: State)
    requires Usable(c) && x <= n
    ensures Reachable(c, n, 3599, t) && Resting(t, n, 60, 1, 0, x)
  {
    hide Reachable, Naming, Carrying, Standing;
    ReachInit(c, n, 3599);
    StartRests(n, 3599);
    t := PassManyKeepsTime(c, n, Init(n, 3599), x);
    StandingIsNaming(t, n, x);
    t := NameAll(c, n, t, x, x);
    t := HourBegins(c, n, t, x);
    t := CarryAll(c, n, t, x, x);
    CarriedRests(t, n, x);
  }

  /** Any number of increments that one minute can take, all workers resting before and after. */
  lemma FillMinute(c: Limits, n: nat, s: State, m: int, b: nat, k: nat) returns (t: State)
    requires Usable(c) && n >= 1 && Reachable(c, n, 3599, s) && Resting(s, n, m, 1, 0, b)
    requires k <= c.perMinute - 1 + n && b + k < c.perHour
    ensures Reachable(c, n, 3599, t) && Resting(t, n, m, 1, k, b + k)
  {
    hide Reachable, Resting;
    var alone: nat := Min(k, c.perMinute - 1);
    t := Singles(c, n, 3599, s, m, 1, 0, b, alone);
    t := Group(c, n, 3599, t, m, 1, alone, b + alone, k - alone);
  }

  lemma AMinuteLater(now: nat)
    ensures Window(PerMinute, now + 60) == Window(PerMinute, now) + 1
    ensures 60 <= Window(PerMinute, now) < 119 ==> Window(PerHour, now + 60) == 1
  {
  }

  lemma NextMinute(c: Limits, n: nat, s: State, m: int, a: nat, b: nat) returns (t: State)
    requires Usable(c) && Reachable(c, n, 3599, s) && Resting(s, n, m, 1, a, b) && 60 <= m < 119
    ensures Reachable(c, n, 3599, t) && Resting(t, n, m + 1, 1, 0, b)
  {
    hide Reachable;
    AMinuteLater(s.now);
    CountsAreTotals(c, n, 3599, s, MinuteKey(DEVICE, m + 1));
    t := Follow(c, n, 3599, s, Tick(60), s.(now := s.now + 60));
  }

  /** `j` whole minutes bring the hour counter to any target they can reach. */
  lemma {:induction false} FillMinutes(c: Limits, n: nat, s: State, m: int, b: nat, target: nat, j: nat)
      returns (t: State)
    requires Usable(c) && n >= 1 && Reachable(c, n, 3599, s) && Resting(s, n, m, 1, 0, b) && 60 <= m && m + j <= 119
    requires b <= target < c.perHour && target <= b + j * (c.perMinute - 1 + n)
    ensures Reachable(c, n, 3599, t) && Resting(t, n, m + j, 1, 0, target)
    decreases j
  {
    hide Reachable, Resting;
    if j == 0 {
      t := s;
    } else {
      var most := c.perMinute - 1 + n;
      var k: nat := Min(most, target - b);
      assert j * most == (j - 1) * most + most;
      t := FillMinute(c, n, s, m, b, k);
      t := NextMinute(c, n, t, m, k, b + k);
      NoMoreThan(j - 1, most);
      t := FillMinutes(c, n, t, m + 1, b + k, target, j - 1);
    }
  }

  lemma NoMoreThan(j: nat, most: nat)
    ensures j * most >= 0
  {
  }

  /** The counter at `t` with all workers resting, in the last minute, which is below its limit. */
  lemma BeforeLast(c: Limits, n: nat, t: nat) returns (s: State, a: nat)
    requires Usable(c) && n >= 1 && t < c.perHour && t <= 60 * (c.perMinute - 1 + n)
    ensures Reachable(c, n, 3599, s) && a < c.perMinute && Resting(s, n, 119, 1, a, t)
  {
    hide Reachable, Resting;
    var most := c.perMinute - 1 + n;
    var whole := n + 59 * most;
    a := if t > whole then t - whole else 0;
    var first: nat := t - a;
    var x: nat := Min(n, first);
    s := CarryOver(c, n, x);
    s := FillMinutes(c, n, s, 60, x, first, 59);
    s := Singles(c, n, 3599, s, 119, 1, 0, first, a);
  }

  /** For every number of workers and every pair of limits some interleaving drives an hour counter to
      exactly the maximum that no interleaving exceeds. */
  lemma HourBoundIsReached(c: Limits, n: nat) returns (acts: seq<Action>)
    requires n >= 1 && Usable(c)
    ensures Total(Run(c, Init(n, 3599), acts), HourKey(DEVICE, 1)) == HourMaximum(c, n)
  {
    hide Run, Resting, Reachable;
    var t: nat := Min(c.perHour - 1, 60 * (c.perMinute - 1 + n));
    var s, a := BeforeLast(c, n, t);
    s := Group(c, n, 3599, s, 119, 1, a, t, n);
    RestingCounts(s, n, 119, 1, a + n, t + n);
    acts := Extract(c, n, 3599, s);
  }
}
