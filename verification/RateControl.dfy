/** The per-device minute and hour counters: check first, send, increment afterwards. The counters are
    shared by all workers, and nothing ties a worker's increment to the check it passed. */
module RateControl {
  import opened Common
  import opened Redis

  datatype Kind = PerMinute | PerHour

  datatype Key = Key(kind: Kind, device: string, window: int)

  datatype Limits = Limits(perMinute: int, perHour: int)

  function Length(kind: Kind): int { if kind == PerMinute then 60 else 3600 }

  function Window(kind: Kind, now: nat): int { now / Length(kind) }

  function Limit(c: Limits, kind: Kind): int { if kind == PerMinute then c.perMinute else c.perHour }

  /** The object the dispatcher calls, one call at a time. */
  class Manager {
    var store: map<Key, Cell>
    const limits: Limits

    constructor (limits: Limits)
      ensures store == map[] && this.limits == limits
    {
      this.limits := limits;
      store := map[];
    }

    /** True exactly when both current windows are below their limits. */
    method CheckDeviceRate(device: string, now: nat) returns (ok: bool)
      ensures ok <==>
        && Count(store, Key(PerMinute, device, Window(PerMinute, now)), now) < limits.perMinute
        && Count(store, Key(PerHour, device, Window(PerHour, now)), now) < limits.perHour
    {
      var minCount := Count(store, Key(PerMinute, device, Window(PerMinute, now)), now);
      var hourCount := Count(store, Key(PerHour, device, Window(PerHour, now)), now);
      ok := minCount < limits.perMinute && hourCount < limits.perHour;
    }

    /** Both current windows grow by one and live for two more window lengths; no other counter moves. */
    method IncrementDeviceCounters(device: string, now: nat)
      modifies this
      ensures forall kind: Kind ::
        var k := Key(kind, device, Window(kind, now));
        k in store && store[k] == Cell(Count(old(store), k, now) + 1, Some(now + 2 * Length(kind)))
      ensures forall k: Key :: k != Key(k.kind, device, Window(k.kind, now)) ==>
        (k in store <==> k in old(store)) && (k in store ==> store[k] == old(store)[k])
    {
      var minKey := Key(PerMinute, device, Window(PerMinute, now));
      store := Expire(Incr(store, minKey, now), minKey, now, 120);
      var hourKey := Key(PerHour, device, Window(PerHour, now));
      store := Expire(Incr(store, hourKey, now), hourKey, now, 7200);
    }
  }

  // ---- workers interleaving at the grain of single clock readings and server commands ----

  datatype Worker =
    | Idle
    | MinuteNamed(device: string, m: int)
    | BothNamed(device: string, m: int, h: int)
    | MinuteRead(device: string, m: int, h: int, ok: bool)
    | Passed(device: string)
    | NamingMinute(device: string, m: int)
    | Writing(device: string, m: int, h: int, stage: nat)

  /** `Check` reads the clock for the minute key; `Next` does the worker's next clock reading or server
      command; `Send` reports the publish between check and increment; `Abort` is any error return. */
  datatype Move = Check(device: string) | Next | Send(ok: bool) | Abort

  datatype Action = Tick(seconds: nat) | Act(w: nat, move: Move)

  /** `total` counts every increment a key ever received, whether or not the server still has the key. */
  datatype State = State(now: nat, store: map<Key, Cell>, workers: seq<Worker>, total: map<Key, nat>)

  function Init(n: nat, now: nat): State {
    State(now, map[], seq(n, _ => Idle), map[])
  }

  function Total(s: State, k: Key): nat {
    if k in s.total then s.total[k] else 0
  }

  function Become(s: State, w: nat, worker: Worker): State
    requires w < |s.workers|
  {
    s.(workers := s.workers[w := worker])
  }

  function Bump(s: State, k: Key): State {
    s.(store := Incr(s.store, k, s.now), total := s.total[k := Total(s, k) + 1])
  }

  function Prolong(s: State, k: Key): State {
    s.(store := Expire(s.store, k, s.now, 2 * Length(k.kind)))
  }

  function DoNext(c: Limits, s: State, w: nat): State
    requires w < |s.workers|
  {
    match s.workers[w]
    case MinuteNamed(d, m) => Become(s, w, BothNamed(d, m, Window(PerHour, s.now)))
    case BothNamed(d, m, h) =>
      Become(s, w, MinuteRead(d, m, h, Count(s.store, Key(PerMinute, d, m), s.now) < c.perMinute))
    case MinuteRead(d, m, h, ok) =>
      Become(s, w, if ok && Count(s.store, Key(PerHour, d, h), s.now) < c.perHour then Passed(d) else Idle)
    case NamingMinute(d, m) => Become(s, w, Writing(d, m, Window(PerHour, s.now), 0))
    case Writing(d, m, h, stage) =>
      if stage == 0 then Become(Bump(s, Key(PerMinute, d, m)), w, Writing(d, m, h, 1))
      else if stage == 1 then Become(Prolong(s, Key(PerMinute, d, m)), w, Writing(d, m, h, 2))
      else if stage == 2 then Become(Bump(s, Key(PerHour, d, h)), w, Writing(d, m, h, 3))
      else Become(Prolong(s, Key(PerHour, d, h)), w, Idle)
    case _ => s
  }

  function Step(c: Limits, s: State, a: Action): State {
    match a
    case Tick(d) => s.(now := s.now + d)
    case Act(w, move) =>
      if w >= |s.workers| then s
      else
        match (s.workers[w], move)
        case (Idle, Check(d)) => Become(s, w, MinuteNamed(d, Window(PerMinute, s.now)))
        case (Passed(d), Send(ok)) =>
          Become(s, w, if ok then NamingMinute(d, Window(PerMinute, s.now)) else Idle)
        case (_, Next) => DoNext(c, s, w)
        case (_, Abort) => Become(s, w, Idle)
        case _ => s
  }

  function Run(c: Limits, s: State, acts: seq<Action>): State {
    if acts == [] then s else Step(c, Run(c, s, acts[..|acts| - 1]), acts[|acts| - 1])
  }

  // ---- the potential argument ----

  /** The worker may still increment `k` without reading it again, when `k`'s current window is `cur`. */
  predicate Holds(w: Worker, k: Key, cur: int) {
    match w
    case Idle => false
    case MinuteNamed(d, m) => d == k.device && k.kind == PerMinute && m < k.window
    case BothNamed(d, m, h) => d == k.device && (if k.kind == PerMinute then m else h) < k.window
    case MinuteRead(d, m, h, ok) => d == k.device && if k.kind == PerMinute then ok && cur <= k.window else h < k.window
    case Passed(d) => d == k.device && cur <= k.window
    case NamingMinute(d, m) => d == k.device && if k.kind == PerMinute then m == k.window else cur <= k.window
    case Writing(d, m, h, stage) =>
      d == k.device && if k.kind == PerMinute then stage == 0 && m == k.window else stage <= 2 && h == k.window
  }

  function HolderOf(k: Key, cur: int): Worker -> bool {
    w => Holds(w, k, cur)
  }

  function Holders(s: State, k: Key): nat {
    CountWhere(s.workers, HolderOf(k, Window(k.kind, s.now)))
  }

  /** Every window a worker has named is at most the current one. */
  predicate NamedBy(w: Worker, now: nat) {
    match w
    case MinuteNamed(_, m) => m <= Window(PerMinute, now)
    case BothNamed(_, m, h) => m <= Window(PerMinute, now) && h <= Window(PerHour, now)
    case MinuteRead(_, m, h, _) => m <= Window(PerMinute, now) && h <= Window(PerHour, now)
    case NamingMinute(_, m) => m <= Window(PerMinute, now)
    case Writing(_, m, h, _) => m <= Window(PerMinute, now) && h <= Window(PerHour, now)
    case _ => true
  }

  /** One whole window after the end of the key's own window. */
  function OutOfUse(k: Key): int {
    if k.kind == PerMinute then 60 * (k.window + 2) else 3600 * (k.window + 2)
  }

  /** The server never forgets a key before it is out of use, and until then counts it exactly. */
  ghost predicate Kept(s: State, k: Key) {
    && (k in s.store && s.store[k].expireAt.Some? ==> OutOfUse(k) <= s.store[k].expireAt.value)
    && (s.now < OutOfUse(k) ==> (if k in s.store then s.store[k].value else 0) == Total(s, k))
    && (Window(k.kind, s.now) < k.window ==> Total(s, k) == 0)
  }

  ghost predicate Bounded(c: Limits, s: State, k: Key) {
    Total(s, k) + Holders(s, k) <= Limit(c, k.kind) - 1 + |s.workers|
  }

  ghost predicate Inv(c: Limits, s: State) {
    && (forall w :: 0 <= w < |s.workers| ==> NamedBy(s.workers[w], s.now))
    && (forall k: Key :: Kept(s, k) && Bounded(c, s, k))
  }

  lemma KeptIsCounted(s: State, k: Key)
    requires Kept(s, k) && s.now < OutOfUse(k)
    ensures Count(s.store, k, s.now) == Total(s, k)
  {
  }

  lemma HoldersAtMostWorkers(s: State, k: Key)
    ensures Holders(s, k) <= |s.workers|
  {
  }

  /** A worker changes place; it may become a holder of `k` only if `k` is still below its limit. */
  lemma MoveKeepsBound(c: Limits, s: State, w: nat, worker: Worker, k: Key)
    requires w < |s.workers| && Bounded(c, s, k)
    requires var cur := Window(k.kind, s.now);
      Holds(worker, k, cur) && !Holds(s.workers[w], k, cur) ==> Total(s, k) < Limit(c, k.kind)
    ensures Bounded(c, Become(s, w, worker), k)
  {
    var t, p := Become(s, w, worker), HolderOf(k, Window(k.kind, s.now));
    CountUpdate(s.workers, w, worker, p);
    HoldersAtMostWorkers(t, k);
  }

  /** Clock and place change only; counters stay. */
  lemma MoveKeepsInv(c: Limits, s: State, w: nat, worker: Worker)
    requires Inv(c, s) && w < |s.workers| && NamedBy(worker, s.now)
    requires forall k: Key ::
      var cur := Window(k.kind, s.now);
      Holds(worker, k, cur) && !Holds(s.workers[w], k, cur) ==> Total(s, k) < Limit(c, k.kind)
    ensures Inv(c, Become(s, w, worker))
  {
    var t := Become(s, w, worker);
    forall k: Key ensures Kept(t, k) && Bounded(c, t, k) {
      assert Kept(s, k) && Bounded(c, s, k);
      MoveKeepsBound(c, s, w, worker, k);
    }
  }

  lemma TickKeepsInv(c: Limits, s: State, d: nat)
    requires Inv(c, s)
    ensures Inv(c, Step(c, s, Tick(d)))
  {
    var t := Step(c, s, Tick(d));
    forall k: Key ensures Kept(t, k) && Bounded(c, t, k) {
      assert Kept(s, k) && Bounded(c, s, k);
      CountMono(s.workers, HolderOf(k, Window(k.kind, t.now)), HolderOf(k, Window(k.kind, s.now)));
    }
    forall w | 0 <= w < |t.workers| ensures NamedBy(t.workers[w], t.now) {
      assert NamedBy(s.workers[w], s.now);
    }
  }

  lemma CheckKeepsInv(c: Limits, s: State, w: nat, move: Move)
    requires c.perMinute >= 1 && c.perHour >= 1
    requires Inv(c, s) && w < |s.workers| && s.workers[w].Idle? && move.Check?
    ensures Inv(c, Step(c, s, Act(w, move)))
  {
    var worker := MinuteNamed(move.device, Window(PerMinute, s.now));
    forall k: Key | Holds(worker, k, Window(k.kind, s.now)) ensures Total(s, k) < Limit(c, k.kind) {
      assert Kept(s, k);
    }
    MoveKeepsInv(c, s, w, worker);
  }

  lemma NextReadKeepsInv(c: Limits, s: State, w: nat)
    requires c.perMinute >= 1 && c.perHour >= 1
    requires Inv(c, s) && w < |s.workers| && !s.workers[w].Writing?
    ensures Inv(c, DoNext(c, s, w))
  {
    var worker := s.workers[w];
    assert NamedBy(worker, s.now);
    if worker.MinuteNamed? || worker.BothNamed? || worker.MinuteRead? || worker.NamingMinute? {
      var next := DoNext(c, s, w).workers[w];
      forall k: Key | Holds(next, k, Window(k.kind, s.now)) && !Holds(worker, k, Window(k.kind, s.now))
        ensures Total(s, k) < Limit(c, k.kind)
      {
        assert Kept(s, k);
      }
      MoveKeepsInv(c, s, w, next);
    }
  }

  /** An increment uses up the worker's hold on the key. */
  lemma BumpKeepsInv(c: Limits, s: State, w: nat, k: Key, worker: Worker)
    requires Inv(c, s) && w < |s.workers| && s.workers[w].Writing? && worker.Writing?
    requires worker == s.workers[w].(stage := s.workers[w].stage + 1)
    requires k == if s.workers[w].stage == 0 then Key(PerMinute, worker.device, worker.m)
                  else Key(PerHour, worker.device, worker.h)
    requires s.workers[w].stage == 0 || s.workers[w].stage == 2
    ensures Inv(c, Become(Bump(s, k), w, worker))
  {
    var t := Become(Bump(s, k), w, worker);
    assert NamedBy(s.workers[w], s.now);
    forall x: Key ensures Kept(t, x) && Bounded(c, t, x) {
      assert Kept(s, x) && Bounded(c, s, x);
      CountUpdate(s.workers, w, worker, HolderOf(x, Window(x.kind, s.now)));
    }
  }

  lemma ProlongKeepsInv(c: Limits, s: State, w: nat, k: Key, worker: Worker)
    requires Inv(c, s) && w < |s.workers| && NamedBy(worker, s.now) && k.window <= Window(k.kind, s.now)
    requires forall x: Key :: Holds(worker, x, Window(x.kind, s.now)) ==> Holds(s.workers[w], x, Window(x.kind, s.now))
    ensures Inv(c, Become(Prolong(s, k), w, worker))
  {
    var s1 := Prolong(s, k);
    forall x: Key ensures Kept(s1, x) && Bounded(c, s1, x) {
      assert Kept(s, x) && Bounded(c, s, x);
    }
    MoveKeepsInv(c, s1, w, worker);
  }

  lemma NextWriteKeepsInv(c: Limits, s: State, w: nat)
    requires Inv(c, s) && w < |s.workers| && s.workers[w].Writing?
    ensures Inv(c, DoNext(c, s, w))
  {
    var Writing(d, m, h, stage) := s.workers[w];
    assert NamedBy(s.workers[w], s.now);
    if stage == 0 {
      BumpKeepsInv(c, s, w, Key(PerMinute, d, m), Writing(d, m, h, 1));
    } else if stage == 1 {
      ProlongKeepsInv(c, s, w, Key(PerMinute, d, m), Writing(d, m, h, 2));
    } else if stage == 2 {
      BumpKeepsInv(c, s, w, Key(PerHour, d, h), Writing(d, m, h, 3));
    } else {
      ProlongKeepsInv(c, s, w, Key(PerHour, d, h), Idle);
    }
  }

  lemma SendKeepsInv(c: Limits, s: State, w: nat, ok: bool)
    requires Inv(c, s) && w < |s.workers| && s.workers[w].Passed?
    ensures Inv(c, Step(c, s, Act(w, Send(ok))))
  {
    MoveKeepsInv(c, s, w, if ok then NamingMinute(s.workers[w].device, Window(PerMinute, s.now)) else Idle);
  }

  lemma StepKeepsInv(c: Limits, s: State, a: Action)
    requires c.perMinute >= 1 && c.perHour >= 1 && Inv(c, s)
    ensures Inv(c, Step(c, s, a))
  {
    if a.Tick? {
      TickKeepsInv(c, s, a.seconds);
    } else if a.w < |s.workers| {
      var worker := s.workers[a.w];
      if worker.Idle? && a.move.Check? {
        CheckKeepsInv(c, s, a.w, a.move);
      } else if worker.Passed? && a.move.Send? {
        SendKeepsInv(c, s, a.w, a.move.ok);
      } else if a.move.Next? && worker.Writing? {
        NextWriteKeepsInv(c, s, a.w);
      } else if a.move.Next? {
        NextReadKeepsInv(c, s, a.w);
      } else if a.move.Abort? {
        MoveKeepsInv(c, s, a.w, Idle);
      } else {
        assert Step(c, s, a) == s;
      }
    }
  }

  lemma {:induction false} RunKeepsInv(c: Limits, n: nat, now: nat, acts: seq<Action>)
    requires c.perMinute >= 1 && c.perHour >= 1
    ensures Inv(c, Run(c, Init(n, now), acts)) && |Run(c, Init(n, now), acts).workers| == n
  {
    if acts == [] {
      var s := Init(n, now);
      forall k: Key ensures Kept(s, k) && Bounded(c, s, k) {
        HoldersAtMostWorkers(s, k);
      }
    } else {
      RunKeepsInv(c, n, now, acts[..|acts| - 1]);
      StepKeepsInv(c, Run(c, Init(n, now), acts[..|acts| - 1]), acts[|acts| - 1]);
    }
  }

  /** In every interleaving of `n` workers, however long a worker stalls between reading the clock,
      reading a counter, sending and incrementing, no device counter is ever incremented past its limit
      minus one plus the number of workers, in any minute and in any hour. */
  lemma DeviceCountersBounded(c: Limits, n: nat, now: nat, acts: seq<Action>, k: Key)
    requires c.perMinute >= 1 && c.perHour >= 1
    ensures Total(Run(c, Init(n, now), acts), k) <= Limit(c, k.kind) - 1 + n
  {
    RunKeepsInv(c, n, now, acts);
    assert Bounded(c, Run(c, Init(n, now), acts), k);
  }

  /** The two-window expiry never forgets a counter whose window is current or the one before. */
  lemma ExpiryForgetsNothingInUse(c: Limits, n: nat, now: nat, acts: seq<Action>, k: Key)
    requires c.perMinute >= 1 && c.perHour >= 1
    requires var t := Run(c, Init(n, now), acts); Window(k.kind, t.now) <= k.window + 1
    ensures var t := Run(c, Init(n, now), acts); Count(t.store, k, t.now) == Total(t, k)
  {
    RunKeepsInv(c, n, now, acts);
    KeptIsCounted(Run(c, Init(n, now), acts), k);
  }
}
