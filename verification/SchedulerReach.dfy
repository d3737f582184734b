/** Runs from the empty table: how often schedulers can enqueue one row, and how a table gets stuck. */
module SchedulerReach {
  import opened Common
  import opened Scheduler
  import opened SchedulerRuns

  ghost predicate Reachable(dec: Decryption, n: nat, now: nat, s: State) {
    exists acts :: Run(dec, Init(n, now), acts) == s
  }

  lemma ReachStep(dec: Decryption, n: nat, now: nat, s: State, a: Action)
    requires Reachable(dec, n, now, s)
    ensures Reachable(dec, n, now, Step(dec, s, a))
  {
    hide Step;
    var acts :| Run(dec, Init(n, now), acts) == s;
    TakeOfAppend(acts, a);
    assert Run(dec, Init(n, now), acts + [a]) == Step(dec, s, a);
  }

  lemma ReachInit(dec: Decryption, n: nat, now: nat)
    ensures Reachable(dec, n, now, Init(n, now))
  {
    assert Run(dec, Init(n, now), []) == Init(n, now);
  }

  // ---- every scheduler enqueues the same row ----

  const ROW_ID: Id := "r"

  function RowAt(at: int): Row { Row(Scheduled, Some(at), "otp", "") }

  function SoleMsg(at: int): Msg { Msg(ROW_ID, RowAt(at)) }

  lemma SoleRowIsBatch(at: int)
    ensures IsBatch(map[ROW_ID := RowAt(at)], at, [SoleMsg(at)])
  {
    var batch := [SoleMsg(at)];
    assert batch[0].id == ROW_ID;
    assert Selected(batch, ROW_ID);
  }

  /** One row waits; the first `k` schedulers have fetched it and handled none. */
  ghost predicate Fetched(s: State, n: nat, k: nat, at: nat) {
    && s.now == at && s.shared == Shared(map[ROW_ID := RowAt(at)], [], [])
    && |s.polls| == n
    && forall p :: 0 <= p < n ==> s.polls[p] == if p < k then Poll([SoleMsg(at)], at) else Poll([], 0)
  }

  /** The first `h` schedulers have handled the row, and each has enqueued it. */
  ghost predicate Served(s: State, n: nat, h: nat, at: nat) {
    && |s.polls| == n && Enqueued(s, ROW_ID) == h
    && forall p :: h <= p < n ==> s.polls[p] == Poll([SoleMsg(at)], at)
  }

  lemma OneRowWaits(dec: Decryption, n: nat, now: nat) returns (s: State)
    ensures Reachable(dec, n, now, s) && Fetched(s, n, 0, now + 1)
  {
    hide Reachable;
    var s0 := Init(n, now);
    ReachInit(dec, n, now);
    ReachStep(dec, n, now, s0, Insert(ROW_ID, RowAt(now + 1)));
    var s1 := Step(dec, s0, Insert(ROW_ID, RowAt(now + 1)));
    assert s1.shared.rows == map[ROW_ID := RowAt(now + 1)];
    ReachStep(dec, n, now, s1, Tick(1));
    s := Step(dec, s1, Tick(1));
  }

  lemma FetchOne(dec: Decryption, n: nat, now: nat, s: State, k: nat) returns (t: State)
    requires Reachable(dec, n, now, s) && Fetched(s, n, k, now + 1) && k < n
    ensures Reachable(dec, n, now, t) && Fetched(t, n, k + 1, now + 1)
  {
    hide Reachable, IsBatch;
    SoleRowIsBatch(now + 1);
    ReachStep(dec, n, now, s, Query(k, [SoleMsg(now + 1)]));
    t := Step(dec, s, Query(k, [SoleMsg(now + 1)]));
  }

  lemma HandleStep(dec: Decryption, s: State, p: nat)
    requires p < |s.polls| && s.polls[p].todo != []
    ensures var Poll(todo, at) := s.polls[p];
      Step(dec, s, Handle(p, Fine))
      == s.(shared := HandleOne(dec, s.shared, todo[0], at, Fine), polls := s.polls[p := Poll(todo[1..], at)])
  {
    hide HandleOne;
  }

  lemma ServeOne(dec: Decryption, n: nat, now: nat, s: State, h: nat, at: nat) returns (t: State)
    requires Reachable(dec, n, now, s) && Served(s, n, h, at) && h < n
    ensures Reachable(dec, n, now, t) && Served(t, n, h + 1, at)
  {
    hide Reachable, HandleOne, Step, CountWhere;
    ReachStep(dec, n, now, s, Handle(h, Fine));
    t := Step(dec, s, Handle(h, Fine));
    HandleStep(dec, s, h);
    ReadsEmptyBody(dec, s.shared, at);
    OneMoreJob(s.shared.jobs, JobOf(SoleMsg(at), "", at));
  }

  lemma OneMoreJob(jobs: seq<Job>, j: Job)
    requires j.id == ROW_ID
    ensures CountWhere(jobs + [j], Of(ROW_ID)) == CountWhere(jobs, Of(ROW_ID)) + 1
  {
    TakeOfAppend(jobs, j);
  }

  /** An empty body needs no decryption. */
  lemma ReadsEmptyBody(dec: Decryption, s: Shared, at: nat)
    ensures HandleOne(dec, s, SoleMsg(at), at, Fine).jobs == s.jobs + [JobOf(SoleMsg(at), "", at)]
  {
  }

  lemma {:induction false} FetchAll(dec: Decryption, n: nat, now: nat, k: nat) returns (s: State)
    requires k <= n
    ensures Reachable(dec, n, now, s) && Fetched(s, n, k, now + 1)
  {
    hide Reachable, Fetched;
    if k == 0 {
      s := OneRowWaits(dec, n, now);
    } else {
      s := FetchAll(dec, n, now, k - 1);
      s := FetchOne(dec, n, now, s, k - 1);
    }
  }

  lemma FetchedIsServable(s: State, n: nat, at: nat)
    requires Fetched(s, n, n, at)
    ensures Served(s, n, 0, at)
  {
  }

  lemma {:induction false} ServeAll(dec: Decryption, n: nat, now: nat, h: nat) returns (s: State)
    requires h <= n
    ensures Reachable(dec, n, now, s) && Served(s, n, h, now + 1)
  {
    hide Reachable, Fetched, Served;
    if h == 0 {
      s := FetchAll(dec, n, now, n);
      FetchedIsServable(s, n, now + 1);
    } else {
      s := ServeAll(dec, n, now, h - 1);
      s := ServeOne(dec, n, now, s, h - 1, now + 1);
    }
  }

  /** For every number of schedulers some run enqueues one row once per scheduler. */
  lemma EachSchedulerEnqueues(dec: Decryption, n: nat, now: nat) returns (acts: seq<Action>)
    ensures Enqueued(Run(dec, Init(n, now), acts), ROW_ID) == n
  {
    var s := ServeAll(dec, n, now, n);
    acts :| Run(dec, Init(n, now), acts) == s;
  }

  ghost predicate NoRowTwice(dec: Decryption, n: nat, now: nat) {
    forall acts, id :: Enqueued(Run(dec, Init(n, now), acts), id) <= 1
  }

  /** The exact condition: no row is ever enqueued twice if and only if there is at most one scheduler. */
  lemma NoRowTwiceIff(dec: Decryption, n: nat, now: nat)
    ensures NoRowTwice(dec, n, now) <==> n <= 1
  {
    hide Run, Enqueued;
    if n <= 1 {
      forall acts, id ensures Enqueued(Run(dec, Init(n, now), acts), id) <= 1 {
        EnqueuedAtMostOncePerScheduler(dec, n, now, acts, id);
      }
    } else {
      var acts := EachSchedulerEnqueues(dec, n, now);
    }
  }

  // ---- a table that is stuck ----

  function Name(i: nat): Id { seq(i, _ => 'b') }

  function NamesBelow(k: nat): (ids: set<Id>)
    ensures forall id :: id in ids ==> |id| < k && id == Name(|id|)
    ensures forall i: nat :: i < k ==> Name(i) in ids
    ensures |ids| == k
  {
    if k == 0 then {} else NamesBelow(k - 1) + {Name(k - 1)}
  }

  /** `k` rows that cannot be decrypted wait from `at` on; no scheduler has done anything. */
  ghost predicate Loaded(s: State, n: nat, k: nat, at: nat, body: string) {
    && s.now < at && s.polls == seq(n, _ => Poll([], 0))
    && s.shared.rows.Keys == NamesBelow(k)
    && forall id :: id in s.shared.rows ==> s.shared.rows[id] == Row(Scheduled, Some(at), "otp", body)
  }

  lemma LoadOne(dec: Decryption, n: nat, now: nat, s: State, k: nat, at: nat, body: string) returns (t: State)
    requires Reachable(dec, n, now, s) && Loaded(s, n, k, at, body)
    ensures Reachable(dec, n, now, t) && Loaded(t, n, k + 1, at, body) && t.now == s.now
  {
    hide Reachable;
    var row := Row(Scheduled, Some(at), "otp", body);
    NextNameIsFree(s, n, k, at, body);
    ReachStep(dec, n, now, s, Insert(Name(k), row));
    t := Step(dec, s, Insert(Name(k), row));
    assert t.shared.rows == s.shared.rows[Name(k) := row];
  }

  lemma {:induction false} LoadAll(dec: Decryption, n: nat, now: nat, k: nat, body: string) returns (s: State)
    ensures Reachable(dec, n, now, s) && Loaded(s, n, k, now + 1, body) && s.now == now
  {
    hide Reachable;
    if k == 0 {
      s := Init(n, now);
      ReachInit(dec, n, now);
    } else {
      hide Loaded;
      s := LoadAll(dec, n, now, k - 1, body);
      s := LoadOne(dec, n, now, s, k - 1, now + 1, body);
    }
  }

  /** One readable row more, a second later, and both are due. */
  function Trap(s: State, victim: Id, row: Row): State {
    WithRow(s, victim, row).(now := s.now + 2)
  }

  lemma ReachTrap(dec: Decryption, n: nat, now: nat, s: State, victim: Id, row: Row)
    requires Reachable(dec, n, now, s) && victim !in s.shared.rows && row.scheduledAt == Some(s.now + 2)
    ensures Reachable(dec, n, now, Trap(s, victim, row))
  {
    hide Reachable;
    ReachStep(dec, n, now, s, Insert(victim, row));
    var s1 := Step(dec, s, Insert(victim, row));
    assert s1 == WithRow(s, victim, row);
    ReachStep(dec, n, now, s1, Tick(2));
    assert Step(dec, s1, Tick(2)) == Trap(s, victim, row);
  }

  lemma TrapIsBlocked(dec: Decryption, s: State, n: nat, body: string, victim: Id, row: Row)
    requires Plaintext(dec, body) == None && Loaded(s, n, BATCH_SIZE, s.now + 1, body)
    requires victim !in s.shared.rows && row.scheduledAt == Some(s.now + 2)
    ensures Blocked(dec, Trap(s, victim, row), NamesBelow(BATCH_SIZE), s.now + 1)
  {
    hide Plaintext, NamesBelow;
    var t, bad := Trap(s, victim, row), NamesBelow(BATCH_SIZE);
    assert |bad| == BATCH_SIZE;
    forall id | id in bad
      ensures id in t.shared.rows && Due(t.shared.rows[id], s.now + 1) && !Readable(dec, t.shared.rows[id])
    {
      assert id in s.shared.rows.Keys;
    }
    forall id | id in t.shared.rows && id !in bad ensures !Due(t.shared.rows[id], s.now + 1) {
      assert id in s.shared.rows ==> id in s.shared.rows.Keys;
    }
  }

  /** Behind a full batch of undecryptable rows a readable row waits, due and out of reach: with
      `PoisonedBatchBlocksForEver` it is never enqueued unless one of those rows is changed. */
  lemma BlockedIsReachable(dec: Decryption, n: nat, now: nat, body: string)
    returns (acts: seq<Action>, bad: set<Id>, victim: Id)
    requires Plaintext(dec, body) == None
    ensures var s := Run(dec, Init(n, now), acts);
      && Blocked(dec, s, bad, now + 1)
      && victim in s.shared.rows && Due(s.shared.rows[victim], s.now) && Readable(dec, s.shared.rows[victim])
  {
    hide *;
    var s := LoadAll(dec, n, now, BATCH_SIZE, body);
    bad, victim := NamesBelow(BATCH_SIZE), Name(BATCH_SIZE);
    NextNameIsFree(s, n, BATCH_SIZE, now + 1, body);
    VictimWaits(dec, s, victim);
    ReachTrap(dec, n, now, s, victim, RowAt(now + 2));
    TrapIsBlocked(dec, s, n, body, victim, RowAt(now + 2));
    acts := Extract(dec, n, now, Trap(s, victim, RowAt(now + 2)));
  }

  lemma NextNameIsFree(s: State, n: nat, k: nat, at: nat, body: string)
    requires Loaded(s, n, k, at, body)
    ensures Name(k) !in s.shared.rows
  {
    assert |Name(k)| == k;
    assert Name(k) !in NamesBelow(k);
    assert Name(k) !in s.shared.rows.Keys;
  }

  lemma VictimWaits(dec: Decryption, s: State, victim: Id)
    ensures RowAt(s.now + 2).scheduledAt == Some(s.now + 2)
    ensures var t := Trap(s, victim, RowAt(s.now + 2));
      victim in t.shared.rows && Due(t.shared.rows[victim], t.now) && Readable(dec, t.shared.rows[victim])
  {
  }

  lemma Extract(dec: Decryption, n: nat, now: nat, s: State) returns (acts: seq<Action>)
    requires Reachable(dec, n, now, s)
    ensures Run(dec, Init(n, now), acts) == s
  {
    acts :| Run(dec, Init(n, now), acts) == s;
  }
}
