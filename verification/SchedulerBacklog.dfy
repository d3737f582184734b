/** Whole ticks of one scheduler working off a backlog, and a backlog it can never get past. */
module SchedulerBacklog {
  import opened Common
  import opened Scheduler
  import SchedulerRuns

  function Waiting(rows: map<Id, Row>): set<Id> {
    set id | id in rows && rows[id].status == Scheduled
  }

  datatype Tick = Tick(now: int, batch: seq<Msg>)

  function AllFine(n: nat): seq<RowOutcome> { seq(n, _ => Fine) }

  function DoTick(dec: Decryption, s: Shared, tick: Tick): Shared {
    HandleAll(dec, s, tick.batch, tick.now, AllFine(|tick.batch|))
  }

  function AfterTicks(dec: Decryption, s: Shared, ticks: seq<Tick>): Shared {
    if ticks == [] then s
    else DoTick(dec, AfterTicks(dec, s, ticks[..|ticks| - 1]), ticks[|ticks| - 1])
  }

  /** Every tick handles an answer of the query at its own time, `from` at the earliest. */
  ghost predicate Polling(dec: Decryption, s: Shared, from: int, ticks: seq<Tick>) {
    ticks == [] || (
      var last := ticks[|ticks| - 1];
      && Polling(dec, s, from, ticks[..|ticks| - 1])
      && from <= last.now
      && IsBatch(AfterTicks(dec, s, ticks[..|ticks| - 1]).rows, last.now, last.batch))
  }

  /** All rows that wait are due by `from` and can be decrypted. */
  predicate Backlog(dec: Decryption, rows: map<Id, Row>, from: int) {
    forall id :: id in rows && rows[id].status == Scheduled ==> Due(rows[id], from) && Readable(dec, rows[id])
  }

  function IdsOf(batch: seq<Msg>): (ids: set<Id>)
    ensures forall i :: 0 <= i < |batch| ==> batch[i].id in ids
  {
    if batch == [] then {} else IdsOf(batch[..|batch| - 1]) + {batch[|batch| - 1].id}
  }

  function TextOf(dec: Decryption, row: Row): string {
    match Plaintext(dec, row.body) case Some(text) => text case None => ""
  }

  /** The jobs of a batch, in its order. */
  function JobsOf(dec: Decryption, batch: seq<Msg>, now: int): (jobs: seq<Job>)
    ensures |jobs| == |batch|
    ensures forall i :: 0 <= i < |batch| ==>
      jobs[i].id == batch[i].id && jobs[i].scheduledFor == batch[i].row.scheduledAt && jobs[i].releasedAt == now
  {
    if batch == [] then []
    else
      var m := batch[|batch| - 1];
      JobsOf(dec, batch[..|batch| - 1], now) + [JobOf(m, TextOf(dec, m.row), now)]
  }

  function Unscheduled(row: Row): Row { row.(status := Pending, scheduledAt := None) }

  function WithReleased(rows: map<Id, Row>, ids: set<Id>): map<Id, Row> {
    map id | id in rows :: if id in ids then Unscheduled(rows[id]) else rows[id]
  }

  lemma ReleaseOneMore(rows: map<Id, Row>, ids: set<Id>, id: Id)
    requires id in rows && id !in ids
    ensures WithReleased(rows, ids)[id := Unscheduled(rows[id])] == WithReleased(rows, ids + {id})
  {
  }

  lemma NoneReleased(rows: map<Id, Row>)
    ensures WithReleased(rows, {}) == rows
  {
  }

  lemma WaitingAfter(rows: map<Id, Row>, ids: set<Id>)
    ensures Waiting(WithReleased(rows, ids)) == Waiting(rows) - ids
  {
  }

  predicate Ready(dec: Decryption, rows: map<Id, Row>, now: int, m: Msg) {
    m.id in rows && rows[m.id] == m.row && Due(m.row, now) && Readable(dec, m.row)
  }

  /** Distinct waiting rows, all due and readable. */
  ghost predicate Handleable(dec: Decryption, rows: map<Id, Row>, now: int, batch: seq<Msg>) {
    && (forall i :: 0 <= i < |batch| ==> Ready(dec, rows, now, batch[i]))
    && DistinctIds(batch)
  }

  ghost predicate DistinctIds(batch: seq<Msg>) {
    forall i, j :: 0 <= i < j < |batch| ==> batch[i].id != batch[j].id
  }

  lemma {:induction false} IdsMean(batch: seq<Msg>, id: Id)
    ensures id in IdsOf(batch) <==> Selected(batch, id)
  {
    if batch != [] {
      var n := |batch| - 1;
      IdsMean(batch[..n], id);
      if Selected(batch[..n], id) {
        var i :| 0 <= i < n && batch[..n][i].id == id;
        assert batch[i].id == id;
      }
    }
  }

  lemma LastIsNew(batch: seq<Msg>)
    requires batch != [] && DistinctIds(batch)
    ensures batch[|batch| - 1].id !in IdsOf(batch[..|batch| - 1])
  {
    IdsMean(batch[..|batch| - 1], batch[|batch| - 1].id);
  }

  /** A ready row is released and its job appended. */
  lemma HandleReady(dec: Decryption, s: Shared, m: Msg, now: int)
    requires m.id in s.rows && s.rows[m.id] == m.row && Due(m.row, now) && Readable(dec, m.row)
    ensures var t := HandleOne(dec, s, m, now, Fine);
      && t.rows == s.rows[m.id := Unscheduled(m.row)]
      && t.jobs == s.jobs + [JobOf(m, TextOf(dec, m.row), now)]
  {
  }

  lemma {:induction false} HandleAllEffect(dec: Decryption, s: Shared, batch: seq<Msg>, now: int)
    requires Handleable(dec, s.rows, now, batch)
    ensures var t := HandleAll(dec, s, batch, now, AllFine(|batch|));
      t.jobs == s.jobs + JobsOf(dec, batch, now) && t.rows == WithReleased(s.rows, IdsOf(batch))
  {
    hide HandleOne, WithReleased, Due, Readable, TextOf, JobOf;
    if batch == [] {
      NoneReleased(s.rows);
    } else {
      var n := |batch| - 1;
      HandleAllEffect(dec, s, batch[..n], now);
      assert AllFine(|batch|)[..n] == AllFine(n);
      var u := HandleAll(dec, s, batch[..n], now, AllFine(n));
      var m := batch[n];
      LastIsNew(batch);
      assert Ready(dec, s.rows, now, m);
      NotReleased(s.rows, IdsOf(batch[..n]), m.id);
      HandleReady(dec, u, m, now);
      ReleaseOneMore(s.rows, IdsOf(batch[..n]), m.id);
    }
  }

  lemma NotReleased(rows: map<Id, Row>, ids: set<Id>, id: Id)
    requires id in rows && id !in ids
    ensures id in WithReleased(rows, ids) && WithReleased(rows, ids)[id] == rows[id]
  {
  }

  lemma {:induction false} IdsCount(batch: seq<Msg>)
    requires DistinctIds(batch)
    ensures |IdsOf(batch)| == |batch|
  {
    if batch != [] {
      IdsCount(batch[..|batch| - 1]);
      LastIsNew(batch);
    }
  }

  lemma BatchIsHandleable(dec: Decryption, rows: map<Id, Row>, from: int, now: int, batch: seq<Msg>)
    requires Backlog(dec, rows, from) && IsBatch(rows, now, batch)
    ensures Handleable(dec, rows, now, batch)
  {
    hide Readable, NotLater;
  }

  /** A batch of a backlog is a part of it, and all of it when it is not full. */
  lemma {:induction false} BatchOfBacklog(dec: Decryption, rows: map<Id, Row>, from: int, now: int, batch: seq<Msg>)
    requires Backlog(dec, rows, from) && from <= now && IsBatch(rows, now, batch)
    ensures IdsOf(batch) <= Waiting(rows) && |Waiting(rows) - IdsOf(batch)| == Max(|Waiting(rows)| - BATCH_SIZE, 0)
  {
    hide Readable, NotLater;
    forall id ensures id in IdsOf(batch) ==> id in Waiting(rows) {
      IdsMean(batch, id);
    }
    assert DistinctIds(batch);
    IdsCount(batch);
    if |batch| < BATCH_SIZE {
      forall id | id in Waiting(rows) ensures id in IdsOf(batch) {
        IdsMean(batch, id);
      }
      assert Waiting(rows) - IdsOf(batch) == {};
    }
    SubsetCount(IdsOf(batch), Waiting(rows));
  }

  lemma ReleasedBacklog(dec: Decryption, rows: map<Id, Row>, from: int, ids: set<Id>)
    requires Backlog(dec, rows, from)
    ensures Backlog(dec, WithReleased(rows, ids), from)
  {
    hide Readable;
  }

  /** One fault-free tick of a backlog: as many rows as fit leave it. */
  lemma TickShrinksBacklog(dec: Decryption, s: Shared, from: int, tick: Tick)
    requires Backlog(dec, s.rows, from) && from <= tick.now && IsBatch(s.rows, tick.now, tick.batch)
    ensures var t := DoTick(dec, s, tick);
      && Backlog(dec, t.rows, from)
      && t.rows == WithReleased(s.rows, IdsOf(tick.batch)) && t.jobs == s.jobs + JobsOf(dec, tick.batch, tick.now)
      && Waiting(t.rows) == Waiting(s.rows) - IdsOf(tick.batch) && IdsOf(tick.batch) <= Waiting(s.rows)
      && |Waiting(t.rows)| == Max(|Waiting(s.rows)| - BATCH_SIZE, 0)
  {
    hide HandleAll, Backlog, Handleable, IsBatch, Waiting, WithReleased, IdsOf, JobsOf;
    BatchIsHandleable(dec, s.rows, from, tick.now, tick.batch);
    HandleAllEffect(dec, s, tick.batch, tick.now);
    WaitingAfter(s.rows, IdsOf(tick.batch));
    ReleasedBacklog(dec, s.rows, from, IdsOf(tick.batch));
    BatchOfBacklog(dec, s.rows, from, tick.now, tick.batch);
  }

  predicate JobNotLater(j: Job, scheduledAt: Option<int>) {
    j.scheduledFor.Some? && scheduledAt.Some? && j.scheduledFor.value <= scheduledAt.value
  }

  /** The jobs were released in nondecreasing scheduled time, and none of them is scheduled later than a
      row that still waits. */
  ghost predicate InOrder(jobs: seq<Job>, rows: map<Id, Row>) {
    && (forall i, j :: 0 <= i < j < |jobs| ==> JobNotLater(jobs[i], jobs[j].scheduledFor))
    && (forall i, id :: 0 <= i < |jobs| && id in Waiting(rows) ==> JobNotLater(jobs[i], rows[id].scheduledAt))
  }

  lemma TickKeepsOrder(dec: Decryption, rows: map<Id, Row>, before: int, batch: seq<Msg>, jobs: seq<Job>)
    requires IsBatch(rows, before, batch) && InOrder(jobs, rows)
    requires forall id :: id in Waiting(rows) ==> Due(rows[id], before)
    ensures InOrder(jobs + JobsOf(dec, batch, before), WithReleased(rows, IdsOf(batch)))
  {
    hide JobsOf, IdsOf;
    var more := jobs + JobsOf(dec, batch, before);
    var left := WithReleased(rows, IdsOf(batch));
    WaitingAfter(rows, IdsOf(batch));
    forall i, j | 0 <= i < j < |more| ensures JobNotLater(more[i], more[j].scheduledFor) {
      if |jobs| <= j {
        JobOfBatch(dec, rows, before, batch, jobs, j);
      }
      if |jobs| <= i {
        JobOfBatch(dec, rows, before, batch, jobs, i);
        assert NotLater(batch[i - |jobs|].row, batch[j - |jobs|].row);
      }
    }
    forall i, id | 0 <= i < |more| && id in Waiting(left) ensures JobNotLater(more[i], left[id].scheduledAt) {
      assert id in Waiting(rows) && id !in IdsOf(batch);
      NotReleased(rows, IdsOf(batch), id);
      IdsMean(batch, id);
      if |jobs| <= i {
        JobOfBatch(dec, rows, before, batch, jobs, i);
        assert NotLater(batch[i - |jobs|].row, rows[id]);
      }
    }
  }

  lemma JobOfBatch(dec: Decryption, rows: map<Id, Row>, before: int, batch: seq<Msg>, jobs: seq<Job>, i: nat)
    requires IsBatch(rows, before, batch) && |jobs| <= i < |jobs| + |batch|
    ensures var m := batch[i - |jobs|];
      && (jobs + JobsOf(dec, batch, before))[i].scheduledFor == m.row.scheduledAt
      && m.id in Waiting(rows) && rows[m.id] == m.row && m.row.scheduledAt.Some?
  {
    hide NotLater;
  }

  function Enqueued(jobs: seq<Job>, id: Id): nat { CountWhere(jobs, SchedulerRuns.Of(id)) }

  lemma {:induction false} EnqueuedByBatch(jobs: seq<Job>, dec: Decryption, batch: seq<Msg>, now: int, id: Id)
    requires DistinctIds(batch)
    ensures Enqueued(jobs + JobsOf(dec, batch, now), id) == Enqueued(jobs, id) + Bit(id in IdsOf(batch))
  {
    hide TextOf;
    if batch == [] {
      assert jobs + JobsOf(dec, batch, now) == jobs;
    } else {
      var n := |batch| - 1;
      EnqueuedByBatch(jobs, dec, batch[..n], now, id);
      var j := JobOf(batch[n], TextOf(dec, batch[n].row), now);
      TakeOfAppend(jobs + JobsOf(dec, batch[..n], now), j);
      assert jobs + JobsOf(dec, batch, now) == jobs + JobsOf(dec, batch[..n], now) + [j];
      LastIsNew(batch);
    }
  }

  /** `n` ticks into a backlog `rows`: how much is left, and what was enqueued for the rest. */
  ghost predicate Progress(dec: Decryption, rows: map<Id, Row>, from: int, n: nat, t: Shared) {
    && |Waiting(t.rows)| == Max(|Waiting(rows)| - BATCH_SIZE * n, 0)
    && Waiting(t.rows) <= Waiting(rows)
    && InOrder(t.jobs, t.rows) && Backlog(dec, t.rows, from)
    && forall id :: Enqueued(t.jobs, id) == Bit(id in Waiting(rows) - Waiting(t.rows))
  }

  lemma TickProgresses(dec: Decryption, rows: map<Id, Row>, from: int, n: nat, u: Shared, tick: Tick)
    requires Progress(dec, rows, from, n, u) && from <= tick.now && IsBatch(u.rows, tick.now, tick.batch)
    ensures Progress(dec, rows, from, n + 1, DoTick(dec, u, tick))
  {
    hide Backlog, IsBatch, InOrder, DoTick, Waiting, WithReleased, IdsOf, JobsOf, Enqueued, Handleable;
    var t := DoTick(dec, u, tick);
    TickShrinksBacklog(dec, u, from, tick);
    BacklogIsDue(dec, u.rows, from, tick.now);
    TickKeepsOrder(dec, u.rows, tick.now, tick.batch, u.jobs);
    forall id ensures Enqueued(t.jobs, id) == Bit(id in Waiting(rows) - Waiting(t.rows)) {
      BatchIsHandleable(dec, u.rows, from, tick.now, tick.batch);
      EnqueuedByBatch(u.jobs, dec, tick.batch, tick.now, id) by {
        HandleableIsDistinct(dec, u.rows, tick.now, tick.batch);
      }
    }
  }

  lemma HandleableIsDistinct(dec: Decryption, rows: map<Id, Row>, now: int, batch: seq<Msg>)
    requires Handleable(dec, rows, now, batch)
    ensures DistinctIds(batch)
  {
  }

  lemma {:induction false} TicksProgress(dec: Decryption, s: Shared, from: int, ticks: seq<Tick>)
    requires Backlog(dec, s.rows, from) && Polling(dec, s, from, ticks) && s.jobs == []
    ensures Progress(dec, s.rows, from, |ticks|, AfterTicks(dec, s, ticks))
  {
    hide Backlog, IsBatch, InOrder, DoTick, Waiting;
    if ticks == [] {
      NothingYet(s.rows);
    } else {
      hide Progress;
      TicksProgress(dec, s, from, ticks[..|ticks| - 1]);
      TickProgresses(dec, s.rows, from, |ticks| - 1, AfterTicks(dec, s, ticks[..|ticks| - 1]), ticks[|ticks| - 1]);
    }
  }

  /** A backlog of `k` due rows without arrivals shrinks by fifty a tick, so it is empty after exactly
      `k / 50` ticks rounded up, and its rows were enqueued in nondecreasing scheduled time, each row that
      left it once and no other. Ties and clock readings are arbitrary. */
  lemma BacklogDrains(dec: Decryption, s: Shared, from: int, ticks: seq<Tick>)
    requires Backlog(dec, s.rows, from) && Polling(dec, s, from, ticks) && s.jobs == []
    ensures var k := |Waiting(s.rows)|; var t := AfterTicks(dec, s, ticks);
      && |Waiting(t.rows)| == Max(k - 50 * |ticks|, 0)
      && (Waiting(t.rows) == {} <==> (k + 49) / 50 <= |ticks|)
      && (forall i, j :: 0 <= i < j < |t.jobs| ==> JobNotLater(t.jobs[i], t.jobs[j].scheduledFor))
      && (forall id :: Enqueued(t.jobs, id) == Bit(id in Waiting(s.rows) - Waiting(t.rows)))
  {
    hide Waiting, Backlog, Polling, AfterTicks;
    TicksProgress(dec, s, from, ticks);
  }

  lemma NothingYet(rows: map<Id, Row>)
    ensures InOrder([], rows)
  {
  }

  lemma BacklogIsDue(dec: Decryption, rows: map<Id, Row>, from: int, now: int)
    requires Backlog(dec, rows, from) && from <= now
    ensures forall id :: id in Waiting(rows) ==> id in rows && Due(rows[id], now)
  {
  }
}
