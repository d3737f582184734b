/** Requests of one client interleaving at the grain of single server commands: how many slip through a
    lockout that is being set while they are under way. */
module BruteForceRuns {
  import opened Common
  import opened Redis
  import opened BruteForce

  /** Where a request stands: past the lockout's lookup, to set the counter's expiry, to set the lockout, to
      delete the counter. */
  datatype Worker = Waiting | LookedUp | Expiring | Locking | Dropping

  datatype Move = Arrive | Next

  datatype Action = Tick(seconds: nat) | Act(w: nat, move: Move)

  /** `passes` are the times at which requests were let through. */
  datatype Floor = Floor(now: nat, store: map<Key, Cell>, workers: seq<Worker>, passes: seq<int>)

  function Init(n: nat): Floor {
    Floor(0, map[], seq(n, _ => Waiting), [])
  }

  function Become(s: Floor, w: nat, worker: Worker): Floor
    requires w < |s.workers|
  {
    s.(workers := s.workers[w := worker])
  }

  function Decide(c: Config, s: Floor, w: nat, count: int): Floor
    requires w < |s.workers|
  {
    if count > c.maxAttempts then Become(s, w, Locking)
    else Become(s.(passes := s.passes + [s.now]), w, Waiting)
  }

  function DoNext(c: Config, who: Who, s: Floor, w: nat): Floor
    requires w < |s.workers|
  {
    match s.workers[w]
    case Waiting => s
    case LookedUp =>
      var count := Count(s.store, Attempts(who), s.now) + 1;
      var t := s.(store := Incr(s.store, Attempts(who), s.now));
      if count == 1 then Become(t, w, Expiring) else Decide(c, t, w, count)
    case Expiring => Decide(c, s.(store := Expire(s.store, Attempts(who), s.now, c.window)), w, 1)
    case Locking => Become(s.(store := Set(s.store, Lockout(who), 1, s.now, c.lockout)), w, Dropping)
    case Dropping => Become(s.(store := Del(s.store, Attempts(who))), w, Waiting)
  }

  function Step(c: Config, who: Who, s: Floor, a: Action): Floor {
    match a
    case Tick(d) => s.(now := s.now + d)
    case Act(w, move) =>
      if w >= |s.workers| then s
      else if move.Next? then DoNext(c, who, s, w)
      else if s.workers[w].Waiting? && !Exists(s.store, Lockout(who), s.now) then Become(s, w, LookedUp)
      else s
  }

  /** A whole request while nothing else moves; a step too many changes nothing. */
  function Undisturbed(c: Config, who: Who, s: Floor, w: nat): Floor {
    var next := Act(w, Next);
    var counted := Step(c, who, Step(c, who, s, Act(w, Arrive)), next);
    Step(c, who, Step(c, who, Step(c, who, counted, next), next), next)
  }

  /** It does what a call of the object does, and passes exactly when the call lets it through. */
  lemma UndisturbedIsHandled(c: Config, who: Who, s: Floor, w: nat)
    requires w < |s.workers| && s.workers[w] == Waiting
    ensures var t := Undisturbed(c, who, s, w);
      var (store, decision) := Handle(c, s.store, who, s.now);
      && t.store == store && t.now == s.now && t.workers == s.workers
      && t.passes == s.passes + if decision.Passed? then [s.now] else []
  {
    hide Incr, Expire, Set, Del, Count, Decide, CellDeadline;
    if !Exists(s.store, Lockout(who), s.now) {
      var count := Count(s.store, Attempts(who), s.now) + 1;
      CountedCell(s.store, Attempts(who), s.now, c.window);
      var u := s.(store := Incr(s.store, Attempts(who), s.now), workers := s.workers[w := LookedUp]);
      if count == 1 {
        AfterCounting(c, who, s, u.(store := Expire(u.store, Attempts(who), s.now, c.window),
                                    workers := s.workers[w := Expiring]), w, count);
        assert s.workers[w := LookedUp][w := Expiring] == s.workers[w := Expiring];
      } else {
        AfterCounting(c, who, s, u, w, count);
      }
    }
  }

  /** The two steps after the decision, of which a request let through needs none. */
  lemma AfterCounting(c: Config, who: Who, s: Floor, u: Floor, w: nat, count: int)
    requires w < |s.workers| == |u.workers| && s.workers[w] == Waiting && u.workers[w := Waiting] == s.workers
    requires count == Count(s.store, Attempts(who), s.now) + 1 && u.now == s.now && u.passes == s.passes
    requires u.store == s.store[Attempts(who) :=
        Cell(count, if count == 1 then Some(s.now + c.window) else CellDeadline(s.store, Attempts(who)))]
    ensures var next := Act(w, Next);
      var t := Step(c, who, Step(c, who, Decide(c, u, w, count), next), next);
      var (store, decision) := HandleUnlocked(c, s.store, who, s.now);
      && t.store == store && t.now == s.now && t.workers == s.workers
      && t.passes == s.passes + if decision.Passed? then [s.now] else []
  {
    hide Count, CellDeadline;
    if count > c.maxAttempts {
      assert Del(Set(u.store, Lockout(who), 1, s.now, c.lockout), Attempts(who))
          == Del(Set(s.store, Lockout(who), 1, s.now, c.lockout), Attempts(who));
      assert u.workers[w := Locking][w := Dropping][w := Waiting] == s.workers;
    }
  }

  function Run(c: Config, who: Who, s: Floor, acts: seq<Action>): Floor {
    if acts == [] then s else Step(c, who, Run(c, who, s, acts[..|acts| - 1]), acts[|acts| - 1])
  }

  // ---- requests already past the lookup ----

  predicate Inside(w: Worker) { w.LookedUp? || w.Expiring? }

  /** The lockout lives until `until` at least. */
  predicate LockedUntil(who: Who, s: Floor, until: int) {
    && Lockout(who) in s.store && s.store[Lockout(who)].expireAt.Some?
    && until <= s.store[Lockout(who)].expireAt.value
  }

  /** While the lockout lives, a request let through leaves the door, and nobody comes in. */
  lemma LockedStep(c: Config, who: Who, s: Floor, a: Action, until: int)
    requires LockedUntil(who, s, until) && until <= s.now + c.lockout
    ensures var t := Step(c, who, s, a);
      && s.now <= t.now && |t.workers| == |s.workers|
      && (t.now < until ==>
            && LockedUntil(who, t, until)
            && |t.passes| + CountWhere(t.workers, Inside) <= |s.passes| + CountWhere(s.workers, Inside))
  {
    if a.Act? && a.w < |s.workers| {
      CountUpdate(s.workers, a.w, Step(c, who, s, a).workers[a.w], Inside);
    }
  }

  lemma {:induction false} LockedRun(c: Config, who: Who, s: Floor, acts: seq<Action>, until: int)
    requires LockedUntil(who, s, until) && until <= s.now + c.lockout
    ensures var t := Run(c, who, s, acts);
      && s.now <= t.now && |t.workers| == |s.workers|
      && (t.now < until ==>
            && LockedUntil(who, t, until)
            && |t.passes| + CountWhere(t.workers, Inside) <= |s.passes| + CountWhere(s.workers, Inside))
  {
    if acts != [] {
      hide Step, LockedUntil;
      LockedRun(c, who, s, acts[..|acts| - 1], until);
      var u := Run(c, who, s, acts[..|acts| - 1]);
      NowGrows(c, who, u, acts[|acts| - 1]);
      if u.now < until {
        LockedStep(c, who, u, acts[|acts| - 1], until);
      }
    }
  }

  lemma NowGrows(c: Config, who: Who, s: Floor, a: Action)
    ensures s.now <= Step(c, who, s, a).now && |Step(c, who, s, a).workers| == |s.workers|
  {
  }

  /** One worker is at a place outside the door. */
  lemma SomebodyOutside(ws: seq<Worker>, w: nat)
    requires w < |ws| && !Inside(ws[w])
    ensures CountWhere(ws, Inside) <= |ws| - 1
  {
    CountUpdate(ws, w, LookedUp, Inside);
  }

  /** The states after which a lockout set by worker `w` lives on. */
  predicate SetsLockout(s: Floor, w: nat) {
    w < |s.workers| && s.workers[w] == Locking
  }

  /** With `n` overlapping requests at most `n - 1` are let through while a lockout lives: those that had
      looked it up before it was set. */
  lemma OvershootBounded(c: Config, who: Who, n: nat, before: seq<Action>, w: nat, after: seq<Action>)
    requires SetsLockout(Run(c, who, Init(n), before), w)
    ensures var s := Run(c, who, Init(n), before); var t := Step(c, who, s, Act(w, Next));
      var u := Run(c, who, t, after);
      u.now < t.now + c.lockout ==> |u.passes| <= |t.passes| + n - 1
  {
    hide Run;
    var s := Run(c, who, Init(n), before);
    var t := Step(c, who, s, Act(w, Next));
    SameNumber(c, who, n, before);
    SomebodyOutside(t.workers, w);
    LockedRun(c, who, t, after, t.now + c.lockout);
  }

  lemma {:induction false} SameNumber(c: Config, who: Who, n: nat, acts: seq<Action>)
    ensures |Run(c, who, Init(n), acts).workers| == n
  {
    if acts != [] {
      hide Step;
      SameNumber(c, who, n, acts[..|acts| - 1]);
      NowGrows(c, who, Run(c, who, Init(n), acts[..|acts| - 1]), acts[|acts| - 1]);
    }
  }

  // ---- a run that reaches the bound ----

  ghost predicate Reachable(c: Config, who: Who, s: Floor, t: Floor) {
    exists acts :: Run(c, who, s, acts) == t
  }

  lemma ReachStep(c: Config, who: Who, s: Floor, t: Floor, a: Action)
    requires Reachable(c, who, s, t)
    ensures Reachable(c, who, s, Step(c, who, t, a))
  {
    hide Step;
    var acts :| Run(c, who, s, acts) == t;
    TakeOfAppend(acts, a);
    assert Run(c, who, s, acts + [a]) == Step(c, who, t, a);
  }

  lemma ReachSelf(c: Config, who: Who, s: Floor)
    ensures Reachable(c, who, s, s)
  {
    assert Run(c, who, s, []) == s;
  }

  lemma Extract(c: Config, who: Who, s: Floor, t: Floor) returns (acts: seq<Action>)
    requires Reachable(c, who, s, t)
    ensures Run(c, who, s, acts) == t
  {
    acts :| Run(c, who, s, acts) == t;
  }

  /** At time zero the counter stands at `k`; workers from `lo` to `hi` are past the lookup. */
  ghost predicate Standing(c: Config, who: Who, s: Floor, n: nat, k: nat, lo: nat, hi: nat) {
    && s.now == 0 && |s.workers| == n && lo <= hi <= n
    && (if k == 0 then Attempts(who) !in s.store
        else Attempts(who) in s.store && s.store[Attempts(who)] == Cell(k, Some(c.window)))
    && forall w :: 0 <= w < n ==> s.workers[w] == if lo <= w < hi then LookedUp else Waiting
  }

  /** A request past the lookup is counted within the limit and let through. */
  lemma PassOne(c: Config, who: Who, s: Floor, t: Floor, n: nat, k: nat, lo: nat, hi: nat) returns (u: Floor)
    requires Usable(c) && Reachable(c, who, s, t) && Standing(c, who, t, n, k, lo, hi) && lo < hi
    requires k + 1 <= c.maxAttempts
    ensures Reachable(c, who, s, u) && Standing(c, who, u, n, k + 1, lo + 1, hi) && |u.passes| == |t.passes| + 1
    ensures Lockout(who) in u.store <==> Lockout(who) in t.store
  {
    hide Reachable;
    ReachStep(c, who, s, t, Act(lo, Next));
    u := Step(c, who, t, Act(lo, Next));
    if k == 0 {
      var v := u;
      ReachStep(c, who, s, v, Act(lo, Next));
      u := Step(c, who, v, Act(lo, Next));
    }
    assert u.workers == t.workers[lo := Waiting];
  }

  lemma LookUpOne(c: Config, who: Who, s: Floor, t: Floor, n: nat, k: nat, lo: nat, hi: nat) returns (u: Floor)
    requires Reachable(c, who, s, t) && Standing(c, who, t, n, k, lo, hi) && hi < n && Lockout(who) !in t.store
    ensures Reachable(c, who, s, u) && Standing(c, who, u, n, k, lo, hi + 1) && Lockout(who) !in u.store
  {
    hide Reachable;
    ReachStep(c, who, s, t, Act(hi, Arrive));
    u := Step(c, who, t, Act(hi, Arrive));
  }

  /** One worker alone uses the limit up. */
  lemma {:induction false} UseUp(c: Config, who: Who, n: nat, k: nat) returns (u: Floor)
    requires Usable(c) && n >= 1 && k <= c.maxAttempts
    ensures Reachable(c, who, Init(n), u) && Standing(c, who, u, n, k, 0, 0) && Lockout(who) !in u.store
  {
    hide Reachable;
    if k == 0 {
      u := Init(n);
      ReachSelf(c, who, u);
    } else {
      u := UseUp(c, who, n, k - 1);
      u := LookUpOne(c, who, Init(n), u, n, k - 1, 0, 0);
      u := PassOne(c, who, Init(n), u, n, k - 1, 0, 1);
      BackToStart(c, who, u, n, k);
    }
  }

  lemma BackToStart(c: Config, who: Who, s: Floor, n: nat, k: nat)
    requires Standing(c, who, s, n, k, 1, 1)
    ensures Standing(c, who, s, n, k, 0, 0)
  {
  }

  lemma {:induction false} LookUpMany(c: Config, who: Who, n: nat, hi: nat) returns (u: Floor)
    requires Usable(c) && 1 <= n && hi <= n && c.maxAttempts >= 1
    ensures Reachable(c, who, Init(n), u) && Standing(c, who, u, n, c.maxAttempts, 0, hi)
    ensures Lockout(who) !in u.store
  {
    hide Reachable, Standing;
    if hi == 0 {
      u := UseUp(c, who, n, c.maxAttempts);
    } else {
      u := LookUpMany(c, who, n, hi - 1);
      u := LookUpOne(c, who, Init(n), u, n, c.maxAttempts, 0, hi - 1);
    }
  }

  /** All are past the lookup; the first one is counted over the limit. */
  lemma OverTheLimit(c: Config, who: Who, n: nat) returns (u: Floor)
    requires Usable(c) && n >= 1 && c.maxAttempts >= 1
    ensures Reachable(c, who, Init(n), u) && u.now == 0 && |u.workers| == n && u.workers[0] == Locking
    ensures forall w :: 1 <= w < n ==> u.workers[w] == LookedUp
  {
    hide Reachable;
    var t := LookUpMany(c, who, n, n);
    ReachStep(c, who, Init(n), t, Act(0, Next));
    u := Step(c, who, t, Act(0, Next));
  }

  /** It sets the lockout and deletes the counter. */
  lemma LockAndDrop(c: Config, who: Who, s: Floor, n: nat) returns (u: Floor)
    requires s.now == 0 && |s.workers| == n >= 1 && s.workers[0] == Locking
    requires forall w :: 1 <= w < n ==> s.workers[w] == LookedUp
    ensures var t := Step(c, who, s, Act(0, Next));
      && t.now == 0
      && Reachable(c, who, t, u) && Standing(c, who, u, n, 0, 1, n) && |u.passes| == |t.passes|
  {
    hide Reachable;
    var t := Step(c, who, s, Act(0, Next));
    ReachSelf(c, who, t);
    ReachStep(c, who, t, t, Act(0, Next));
    u := Step(c, who, t, Act(0, Next));
  }

  lemma {:induction false} SlipThrough(c: Config, who: Who, s: Floor, t: Floor, n: nat, k: nat) returns (u: Floor)
    requires Usable(c) && Reachable(c, who, s, t) && Standing(c, who, t, n, 0, 1, n)
    requires k <= n - 1 && k <= c.maxAttempts
    ensures Reachable(c, who, s, u) && Standing(c, who, u, n, k, 1 + k, n) && |u.passes| == |t.passes| + k
  {
    hide Reachable, Standing;
    if k == 0 {
      u := t;
    } else {
      u := SlipThrough(c, who, s, t, n, k - 1);
      u := PassOne(c, who, s, u, n, k - 1, k, n);
    }
  }

  /** The bound is reached whenever the limit is at least `n - 1`: all but the locking request slip through
      at the very moment the lockout is set. */
  lemma OvershootIsReached(c: Config, who: Who, n: nat, k: nat)
    returns (before: seq<Action>, after: seq<Action>)
    requires Usable(c) && n >= 1 && c.maxAttempts >= 1 && k <= n - 1 && k <= c.maxAttempts
    ensures SetsLockout(Run(c, who, Init(n), before), 0)
    ensures var t := Step(c, who, Run(c, who, Init(n), before), Act(0, Next));
      var u := Run(c, who, t, after);
      u.now == t.now && |u.passes| == |t.passes| + k
  {
    hide Run, Reachable, Step;
    var s := OverTheLimit(c, who, n);
    before := Extract(c, who, Init(n), s);
    var t := Step(c, who, s, Act(0, Next));
    var v := LockAndDrop(c, who, s, n);
    var u := SlipThrough(c, who, t, v, n, k);
    after := Extract(c, who, t, u);
  }

  /** Nothing at all is let through while a lockout lives. */
  ghost predicate LockoutHolds(c: Config, who: Who, n: nat) {
    forall before, w, after ::
      SetsLockout(Run(c, who, Init(n), before), w) ==>
        var t := Step(c, who, Run(c, who, Init(n), before), Act(w, Next));
        var u := Run(c, who, t, after);
        u.now < t.now + c.lockout ==> |u.passes| <= |t.passes|
  }

  /** The exact condition: a lockout lets nothing through if and only if requests do not overlap (or none is
      ever let through). */
  lemma LockoutHoldsIff(c: Config, who: Who, n: nat)
    requires Usable(c)
    ensures LockoutHolds(c, who, n) <==> n <= 1 || c.maxAttempts <= 0
  {
    hide Run, Step;
    if n <= 1 || c.maxAttempts <= 0 {
      forall before, w, after | SetsLockout(Run(c, who, Init(n), before), w)
        ensures var t := Step(c, who, Run(c, who, Init(n), before), Act(w, Next));
          var u := Run(c, who, t, after);
          u.now < t.now + c.lockout ==> |u.passes| <= |t.passes|
      {
        OvershootBounded(c, who, n, before, w, after);
        SameNumber(c, who, n, before);
        if c.maxAttempts <= 0 {
          NothingPasses(c, who, Init(n), before);
          StepKeepsCounter(c, who, Run(c, who, Init(n), before), Act(w, Next));
          NothingPasses(c, who, Step(c, who, Run(c, who, Init(n), before), Act(w, Next)), after);
        }
      }
    } else {
      var before, after := OvershootIsReached(c, who, n, 1);
    }
  }

  predicate CounterInv(who: Who, s: Floor) {
    Attempts(who) in s.store ==> s.store[Attempts(who)].value >= 1
  }

  lemma StepKeepsCounter(c: Config, who: Who, s: Floor, a: Action)
    requires CounterInv(who, s)
    ensures CounterInv(who, Step(c, who, s, a))
    ensures c.maxAttempts <= 0 ==> Step(c, who, s, a).passes == s.passes
  {
  }

  lemma {:induction false} NothingPasses(c: Config, who: Who, s: Floor, acts: seq<Action>)
    requires c.maxAttempts <= 0 && CounterInv(who, s)
    ensures CounterInv(who, Run(c, who, s, acts)) && Run(c, who, s, acts).passes == s.passes
  {
    if acts != [] {
      hide Step, CounterInv;
      NothingPasses(c, who, s, acts[..|acts| - 1]);
      StepKeepsCounter(c, who, Run(c, who, s, acts[..|acts| - 1]), acts[|acts| - 1]);
    }
  }
}
