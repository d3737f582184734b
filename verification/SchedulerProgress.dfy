/** When a readable row is enqueued although rows that cannot be decrypted wait before it: fault-free
    ticks of one scheduler, between which further rows may be scheduled. */
module SchedulerProgress {
  import opened Common
  import opened Scheduler
  import opened SchedulerBacklog
  import Arithmetic

  /** Rows that arrive, and the tick after them. */
  datatype Round = Round(arrivals: map<Id, Row>, tick: Tick)

  function Arrive(s: Shared, arrivals: map<Id, Row>): Shared {
    s.(rows := s.rows + arrivals)
  }

  function DoRound(dec: Decryption, s: Shared, round: Round): Shared {
    DoTick(dec, Arrive(s, round.arrivals), round.tick)
  }

  function AfterRounds(dec: Decryption, s: Shared, rounds: seq<Round>): Shared {
    if rounds == [] then s
    else DoRound(dec, AfterRounds(dec, s, rounds[..|rounds| - 1]), rounds[|rounds| - 1])
  }

  /** New rows are scheduled in the future, so later than `from`, and each tick handles an answer of the
      query at its own time. */
  ghost predicate Fair(s: Shared, from: int, round: Round) {
    && round.arrivals.Keys !! s.rows.Keys
    && (forall id :: id in round.arrivals ==> !Due(round.arrivals[id], from))
    && from <= round.tick.now
    && IsBatch(Arrive(s, round.arrivals).rows, round.tick.now, round.tick.batch)
  }

  ghost predicate AllFair(dec: Decryption, s: Shared, from: int, rounds: seq<Round>) {
    rounds == [] || (
      && AllFair(dec, s, from, rounds[..|rounds| - 1])
      && Fair(AfterRounds(dec, s, rounds[..|rounds| - 1]), from, rounds[|rounds| - 1]))
  }

  // ---- a tick with unreadable rows in its batch ----

  function ReadableOf(dec: Decryption, batch: seq<Msg>): (r: seq<Msg>)
    ensures forall i :: 0 <= i < |r| ==> r[i] in batch && Readable(dec, r[i].row)
  {
    if batch == [] then []
    else
      var m := batch[|batch| - 1];
      ReadableOf(dec, batch[..|batch| - 1]) + (if Readable(dec, m.row) then [m] else [])
  }

  /** Distinct due rows of the table. */
  ghost predicate Fetched(rows: map<Id, Row>, now: int, batch: seq<Msg>) {
    && DistinctIds(batch)
    && forall i :: 0 <= i < |batch| ==>
        batch[i].id in rows && rows[batch[i].id] == batch[i].row && Due(batch[i].row, now)
  }

  lemma BatchIsFetched(rows: map<Id, Row>, now: int, batch: seq<Msg>)
    requires IsBatch(rows, now, batch)
    ensures Fetched(rows, now, batch)
  {
    hide NotLater, Due;
  }

  lemma HandleUnreadable(dec: Decryption, s: Shared, m: Msg, now: int)
    requires !Readable(dec, m.row)
    ensures HandleOne(dec, s, m, now, Fine) == s
  {
  }

  lemma {:induction false} ReadableIds(dec: Decryption, batch: seq<Msg>, id: Id)
    ensures id in IdsOf(ReadableOf(dec, batch)) <==>
      exists i :: 0 <= i < |batch| && batch[i].id == id && Readable(dec, batch[i].row)
  {
    hide Readable;
    if batch != [] {
      var n := |batch| - 1;
      ReadableIds(dec, batch[..n], id);
      OneMoreId(ReadableOf(dec, batch[..n]), batch[n]);
      if i :| 0 <= i < n && batch[..n][i].id == id && Readable(dec, batch[..n][i].row) {
        assert batch[i].id == id && Readable(dec, batch[i].row);
      }
    }
  }

  lemma OneMoreId(batch: seq<Msg>, m: Msg)
    ensures IdsOf(batch + [m]) == IdsOf(batch) + {m.id}
    ensures batch + [] == batch
  {
    TakeOfAppend(batch, m);
  }

  lemma {:induction false} ReadableDistinct(dec: Decryption, batch: seq<Msg>)
    requires DistinctIds(batch)
    ensures DistinctIds(ReadableOf(dec, batch))
  {
    hide Readable;
    if batch != [] {
      var n := |batch| - 1;
      ReadableDistinct(dec, batch[..n]);
    }
  }

  lemma OneMoreJob(dec: Decryption, batch: seq<Msg>, m: Msg, now: int)
    ensures JobsOf(dec, batch + [m], now) == JobsOf(dec, batch, now) + [JobOf(m, TextOf(dec, m.row), now)]
  {
    TakeOfAppend(batch, m);
  }

  /** A readable row after some others: released and enqueued like them. */
  lemma OneMoreReleased(dec: Decryption, rows: map<Id, Row>, u: Shared, good: seq<Msg>, m: Msg, now: int)
    requires u.rows == WithReleased(rows, IdsOf(good)) && m.id !in IdsOf(good)
    requires m.id in rows && rows[m.id] == m.row && Due(m.row, now) && Readable(dec, m.row)
    ensures var t := HandleOne(dec, u, m, now, Fine);
      && t.jobs == u.jobs + [JobOf(m, TextOf(dec, m.row), now)]
      && t.rows == WithReleased(rows, IdsOf(good + [m]))
  {
    hide HandleOne, WithReleased, Due, Readable, TextOf, JobOf, IdsOf;
    NotReleased(rows, IdsOf(good), m.id);
    HandleReady(dec, u, m, now);
    ReleaseOneMore(rows, IdsOf(good), m.id);
    OneMoreId(good, m);
  }

  /** The readable rows of a batch are released and enqueued; nothing else changes. */
  lemma {:induction false} TickEffect(dec: Decryption, s: Shared, batch: seq<Msg>, now: int)
    requires Fetched(s.rows, now, batch)
    ensures var t := HandleAll(dec, s, batch, now, AllFine(|batch|)); var good := ReadableOf(dec, batch);
      t.jobs == s.jobs + JobsOf(dec, good, now) && t.rows == WithReleased(s.rows, IdsOf(good))
  {
    hide HandleOne, WithReleased, Due, Readable, TextOf, JobOf, IdsOf, JobsOf;
    if batch == [] {
      NothingFetched(dec, s, now);
    } else {
      var n := |batch| - 1;
      var m, good := batch[n], ReadableOf(dec, batch[..n]);
      TickEffect(dec, s, batch[..n], now);
      assert AllFine(|batch|)[..n] == AllFine(n);
      var u := HandleAll(dec, s, batch[..n], now, AllFine(n));
      if Readable(dec, m.row) {
        LastIsNotBefore(dec, batch);
        OneMoreReleased(dec, s.rows, u, good, m, now);
        OneMoreJob(dec, good, m, now);
      } else {
        HandleUnreadable(dec, u, m, now);
        assert good + [] == good;
      }
    }
  }

  lemma NothingFetched(dec: Decryption, s: Shared, now: int)
    ensures JobsOf(dec, [], now) == [] && WithReleased(s.rows, IdsOf([])) == s.rows && s.jobs + [] == s.jobs
  {
  }

  lemma LastIsNotBefore(dec: Decryption, batch: seq<Msg>)
    requires batch != [] && DistinctIds(batch)
    ensures batch[|batch| - 1].id !in IdsOf(ReadableOf(dec, batch[..|batch| - 1]))
  {
    ReadableIds(dec, batch[..|batch| - 1], batch[|batch| - 1].id);
  }

  // ---- one row and what waits before it ----

  /** Readable rows other than `id` that wait and are scheduled no later than `at`. */
  function Ahead(dec: Decryption, rows: map<Id, Row>, id: Id, at: int): set<Id> {
    set x | x in rows && x != id && Due(rows[x], at) && Readable(dec, rows[x])
  }

  /** Unreadable rows that wait and are scheduled no later than `at`. */
  function Stuck(dec: Decryption, rows: map<Id, Row>, at: int): set<Id> {
    set x | x in rows && Due(rows[x], at) && !Readable(dec, rows[x])
  }

  /** The row is scheduled at `at`, which is no later than `from`, and can be decrypted. */
  predicate Waits(dec: Decryption, rows: map<Id, Row>, id: Id, at: int, from: int) {
    && id in rows && rows[id].status == Scheduled && rows[id].scheduledAt == Some(at)
    && at <= from && Readable(dec, rows[id])
  }

  /** Rows that arrive later than `from` are neither ahead nor stuck before it. */
  lemma ArrivalsComeAfter(dec: Decryption, s: Shared, arrivals: map<Id, Row>, id: Id, at: int, from: int)
    requires arrivals.Keys !! s.rows.Keys && at <= from && Waits(dec, s.rows, id, at, from)
    requires forall x :: x in arrivals ==> !Due(arrivals[x], from)
    ensures var rows := Arrive(s, arrivals).rows;
      && Ahead(dec, rows, id, at) == Ahead(dec, s.rows, id, at)
      && Stuck(dec, rows, at) == Stuck(dec, s.rows, at) && Stuck(dec, rows, at - 1) == Stuck(dec, s.rows, at - 1)
      && Waits(dec, rows, id, at, from)
  {
    hide Readable;
    var rows := Arrive(s, arrivals).rows;
    assert forall x :: x in s.rows ==> x in rows && rows[x] == s.rows[x];
    assert forall x :: x in arrivals ==> !Due(arrivals[x], at);
  }

  /** The readable rows of a batch that leaves the row out are ahead of it. */
  lemma ReleasedAreAhead(dec: Decryption, rows: map<Id, Row>, id: Id, at: int, from: int, now: int, batch: seq<Msg>)
    requires Waits(dec, rows, id, at, from) && from <= now && IsBatch(rows, now, batch) && !Selected(batch, id)
    ensures |batch| == BATCH_SIZE
    ensures forall i :: 0 <= i < |batch| ==>
      batch[i].id in (if Readable(dec, batch[i].row) then Ahead(dec, rows, id, at) else Stuck(dec, rows, at))
  {
    hide Readable;
    assert Due(rows[id], now);
    forall i | 0 <= i < |batch|
      ensures batch[i].id in (if Readable(dec, batch[i].row) then Ahead(dec, rows, id, at) else Stuck(dec, rows, at))
    {
      assert NotLater(batch[i].row, rows[id]);
      assert batch[i].id != id by {
        assert batch[i].id == id ==> Selected(batch, id);
      }
    }
  }

  /** At least `BATCH_SIZE` minus the stuck rows of them. */
  lemma EnoughReleased(dec: Decryption, rows: map<Id, Row>, id: Id, at: int, from: int, now: int, batch: seq<Msg>)
    requires Waits(dec, rows, id, at, from) && from <= now && IsBatch(rows, now, batch) && !Selected(batch, id)
    ensures IdsOf(ReadableOf(dec, batch)) <= Ahead(dec, rows, id, at)
    ensures |IdsOf(ReadableOf(dec, batch))| + |Stuck(dec, rows, at)| >= BATCH_SIZE
  {
    hide Readable, Ahead, Stuck, IsBatch, Waits;
    ReleasedAreAhead(dec, rows, id, at, from, now, batch);
    BatchIsFetched(rows, now, batch);
    var good := IdsOf(ReadableOf(dec, batch));
    forall x ensures x in good ==> x in Ahead(dec, rows, id, at) {
      ReadableIds(dec, batch, x);
    }
    forall x ensures x in IdsOf(batch) - good ==> x in Stuck(dec, rows, at) {
      IdsMean(batch, x);
      ReadableIds(dec, batch, x);
    }
    forall x ensures x in good ==> x in IdsOf(batch) {
      IdsMean(batch, x);
      ReadableIds(dec, batch, x);
    }
    IdsCount(batch);
    SubsetCount(good, IdsOf(batch));
    SubsetCount(IdsOf(batch) - good, Stuck(dec, rows, at));
  }

  /** Where the row stands after some rounds: still waiting, with fewer rows ahead, or enqueued once. */
  ghost predicate Advanced(dec: Decryption, s: Shared, t: Shared, id: Id, at: int, from: int, k: nat)
    requires id in s.rows
  {
    if Enqueued(t.jobs, id) == Enqueued(s.jobs, id) then
      && Waits(dec, t.rows, id, at, from)
      && Stuck(dec, t.rows, at) == Stuck(dec, s.rows, at)
      && |Ahead(dec, t.rows, id, at)| + k * (BATCH_SIZE - |Stuck(dec, s.rows, at)|) <= |Ahead(dec, s.rows, id, at)|
    else
      && Enqueued(t.jobs, id) == Enqueued(s.jobs, id) + 1
      && id in t.rows && t.rows[id].status != Scheduled
  }

  lemma ReleaseKeepsOthers(dec: Decryption, rows: map<Id, Row>, ids: set<Id>, id: Id, at: int, from: int)
    requires Waits(dec, rows, id, at, from) && id !in ids && ids <= Ahead(dec, rows, id, at)
    ensures var left := WithReleased(rows, ids);
      && Waits(dec, left, id, at, from)
      && Stuck(dec, left, at) == Stuck(dec, rows, at) && Stuck(dec, left, at - 1) == Stuck(dec, rows, at - 1)
      && Ahead(dec, left, id, at) == Ahead(dec, rows, id, at) - ids
  {
    hide Readable;
  }

  lemma RoundWithout(dec: Decryption, u: Shared, id: Id, at: int, from: int, tick: Tick)
    requires Waits(dec, u.rows, id, at, from) && from <= tick.now && IsBatch(u.rows, tick.now, tick.batch)
    requires !Selected(tick.batch, id)
    ensures var t := DoTick(dec, u, tick);
      && Enqueued(t.jobs, id) == Enqueued(u.jobs, id)
      && Waits(dec, t.rows, id, at, from)
      && Stuck(dec, t.rows, at) == Stuck(dec, u.rows, at) && Stuck(dec, t.rows, at - 1) == Stuck(dec, u.rows, at - 1)
      && |Ahead(dec, t.rows, id, at)| + BATCH_SIZE - |Stuck(dec, u.rows, at)| <= |Ahead(dec, u.rows, id, at)|
  {
    hide Readable, IsBatch, Ahead, Stuck, Waits, HandleAll, WithReleased, JobsOf, IdsOf, CountWhere;
    var good := IdsOf(ReadableOf(dec, tick.batch));
    EnoughReleased(dec, u.rows, id, at, from, tick.now, tick.batch);
    BatchIsFetched(u.rows, tick.now, tick.batch);
    TickEffect(dec, u, tick.batch, tick.now);
    assert id !in good by {
      ReadableIds(dec, tick.batch, id);
    }
    ReleaseKeepsOthers(dec, u.rows, good, id, at, from);
    SubsetCount(good, Ahead(dec, u.rows, id, at));
    ReadableDistinct(dec, tick.batch);
    EnqueuedByBatch(u.jobs, dec, ReadableOf(dec, tick.batch), tick.now, id);
  }

  lemma RoundWith(dec: Decryption, u: Shared, id: Id, tick: Tick)
    requires IsBatch(u.rows, tick.now, tick.batch) && Selected(tick.batch, id)
    requires id in u.rows && Readable(dec, u.rows[id])
    ensures var t := DoTick(dec, u, tick);
      && Enqueued(t.jobs, id) == Enqueued(u.jobs, id) + 1
      && id in t.rows && t.rows[id].status != Scheduled
  {
    hide Readable, IsBatch, HandleAll, JobsOf, IdsOf, CountWhere, Due;
    BatchIsFetched(u.rows, tick.now, tick.batch);
    TickEffect(dec, u, tick.batch, tick.now);
    ReadableIds(dec, tick.batch, id);
    ReadableDistinct(dec, tick.batch);
    EnqueuedByBatch(u.jobs, dec, ReadableOf(dec, tick.batch), tick.now, id);
  }

  /** A row that has left the schedule is in no later batch. */
  lemma RoundAfter(dec: Decryption, u: Shared, id: Id, tick: Tick)
    requires IsBatch(u.rows, tick.now, tick.batch) && id in u.rows && u.rows[id].status != Scheduled
    ensures var t := DoTick(dec, u, tick);
      Enqueued(t.jobs, id) == Enqueued(u.jobs, id) && id in t.rows && t.rows[id].status != Scheduled
  {
    hide Readable, HandleAll, JobsOf, IdsOf, CountWhere;
    BatchIsFetched(u.rows, tick.now, tick.batch);
    TickEffect(dec, u, tick.batch, tick.now);
    assert id !in IdsOf(ReadableOf(dec, tick.batch)) by {
      ReadableIds(dec, tick.batch, id);
    }
    ReadableDistinct(dec, tick.batch);
    EnqueuedByBatch(u.jobs, dec, ReadableOf(dec, tick.batch), tick.now, id);
  }

  lemma OneMoreTimes(k: nat, c: int)
    ensures (k + 1) * c == k * c + c
  {
  }

  lemma RoundAdvances(dec: Decryption, s: Shared, u: Shared, id: Id, at: int, from: int, k: nat, round: Round)
    requires Waits(dec, s.rows, id, at, from) && Advanced(dec, s, u, id, at, from, k) && Fair(u, from, round)
    ensures Advanced(dec, s, DoRound(dec, u, round), id, at, from, k + 1)
  {
    hide Readable, IsBatch, Ahead, Stuck, DoTick, CountWhere, Waits;
    var v := Arrive(u, round.arrivals);
    if Enqueued(u.jobs, id) == Enqueued(s.jobs, id) {
      ArrivalsComeAfter(dec, u, round.arrivals, id, at, from) by {
        WaitsMeans(dec, s.rows, id, at, from);
      }
      WaitsMeans(dec, v.rows, id, at, from);
      if Selected(round.tick.batch, id) {
        RoundWith(dec, v, id, round.tick);
      } else {
        RoundWithout(dec, v, id, at, from, round.tick);
        OneMoreTimes(k, BATCH_SIZE - |Stuck(dec, s.rows, at)|);
      }
    } else {
      RoundAfter(dec, v, id, round.tick);
    }
  }

  lemma WaitsMeans(dec: Decryption, rows: map<Id, Row>, id: Id, at: int, from: int)
    requires Waits(dec, rows, id, at, from)
    ensures at <= from && id in rows && Readable(dec, rows[id])
  {
  }

  lemma {:induction false} RoundsAdvance(dec: Decryption, s: Shared, from: int, rounds: seq<Round>, id: Id, at: int)
    requires Waits(dec, s.rows, id, at, from) && AllFair(dec, s, from, rounds)
    ensures Advanced(dec, s, AfterRounds(dec, s, rounds), id, at, from, |rounds|)
  {
    hide Advanced, Fair, DoRound, Waits;
    if rounds == [] {
      NoRounds(dec, s, id, at, from);
    } else {
      RoundsAdvance(dec, s, from, rounds[..|rounds| - 1], id, at);
      RoundAdvances(dec, s, AfterRounds(dec, s, rounds[..|rounds| - 1]), id, at, from, |rounds| - 1,
          rounds[|rounds| - 1]);
    }
  }

  lemma NoRounds(dec: Decryption, s: Shared, id: Id, at: int, from: int)
    requires Waits(dec, s.rows, id, at, from)
    ensures id in s.rows && Advanced(dec, s, s, id, at, from, 0)
  {
    hide Ahead, Stuck, CountWhere;
  }

  /** With `u` undecryptable rows scheduled no later than a readable row, each round works off at least
      `BATCH_SIZE - u` of the readable rows ahead of it; so it is enqueued, once, by the first round `k`
      with `k * (BATCH_SIZE - u)` above their number. */
  lemma EnqueuedByRound(dec: Decryption, s: Shared, from: int, rounds: seq<Round>, id: Id, at: int)
    requires Waits(dec, s.rows, id, at, from) && AllFair(dec, s, from, rounds)
    requires |rounds| * (BATCH_SIZE - |Stuck(dec, s.rows, at)|) > |Ahead(dec, s.rows, id, at)|
    ensures Enqueued(AfterRounds(dec, s, rounds).jobs, id) == Enqueued(s.jobs, id) + 1
  {
    hide Ahead, Stuck, AfterRounds, AllFair, Enqueued;
    RoundsAdvance(dec, s, from, rounds, id, at);
  }

  // ---- never ----

  /** A batch that holds the row holds every stuck row scheduled before it. */
  lemma StuckComeFirst(dec: Decryption, rows: map<Id, Row>, id: Id, at: int, from: int, now: int, batch: seq<Msg>)
    requires Waits(dec, rows, id, at, from) && from <= now && IsBatch(rows, now, batch) && Selected(batch, id)
    ensures Stuck(dec, rows, at - 1) + {id} <= IdsOf(batch) && id !in Stuck(dec, rows, at - 1)
    ensures |IdsOf(batch)| <= BATCH_SIZE
  {
    hide Readable;
    var i :| 0 <= i < |batch| && batch[i].id == id;
    forall x | x in Stuck(dec, rows, at - 1) ensures x in IdsOf(batch) {
      IdsMean(batch, x);
      assert Due(rows[x], now) && !NotLater(batch[i].row, rows[x]);
    }
    IdsMean(batch, id);
    IdsCount(batch);
  }

  lemma FullOfStuck(dec: Decryption, rows: map<Id, Row>, id: Id, at: int, from: int, now: int, batch: seq<Msg>)
    requires Waits(dec, rows, id, at, from) && from <= now && IsBatch(rows, now, batch)
    requires |Stuck(dec, rows, at - 1)| >= BATCH_SIZE
    ensures !Selected(batch, id)
  {
    hide Waits, IsBatch, Stuck, IdsOf;
    if Selected(batch, id) {
      StuckComeFirst(dec, rows, id, at, from, now, batch);
      SubsetCount(Stuck(dec, rows, at - 1) + {id}, IdsOf(batch));
    }
  }

  lemma {:induction false} NeverEnqueued(dec: Decryption, s: Shared, from: int, rounds: seq<Round>, id: Id, at: int)
    requires Waits(dec, s.rows, id, at, from) && AllFair(dec, s, from, rounds)
    requires |Stuck(dec, s.rows, at - 1)| >= BATCH_SIZE
    ensures var t := AfterRounds(dec, s, rounds);
      && Enqueued(t.jobs, id) == Enqueued(s.jobs, id)
      && Waits(dec, t.rows, id, at, from) && Stuck(dec, t.rows, at - 1) == Stuck(dec, s.rows, at - 1)
  {
    hide Readable, IsBatch, Ahead, Stuck, DoTick, Enqueued, Waits;
    if rounds != [] {
      var last := rounds[|rounds| - 1];
      NeverEnqueued(dec, s, from, rounds[..|rounds| - 1], id, at);
      var u := AfterRounds(dec, s, rounds[..|rounds| - 1]);
      var v := Arrive(u, last.arrivals);
      WaitsMeans(dec, u.rows, id, at, from);
      ArrivalsComeAfter(dec, u, last.arrivals, id, at, from);
      FullOfStuck(dec, v.rows, id, at, from, last.tick.now, last.tick.batch);
      RoundWithout(dec, v, id, at, from, last.tick);
    }
  }

  // ---- ties ----

  /** With a full batch of stuck rows no later than the row, some answer of the query leaves it out. */
  lemma BatchWithout(dec: Decryption, rows: map<Id, Row>, id: Id, at: int, from: int) returns (batch: seq<Msg>)
    requires Waits(dec, rows, id, at, from) && |Stuck(dec, rows, at)| >= BATCH_SIZE
    ensures IsBatch(rows, from, batch) && !Selected(batch, id)
  {
    hide Readable;
    var others := rows - {id};
    batch := BatchExists(others, from);
    assert !Selected(batch, id);
    FullOfOthers(dec, rows, id, at, from, batch);
  }

  /** The stuck rows fill the batch, and nothing in it is later than they are. */
  lemma FullOfOthers(dec: Decryption, rows: map<Id, Row>, id: Id, at: int, from: int, batch: seq<Msg>)
    requires Waits(dec, rows, id, at, from) && |Stuck(dec, rows, at)| >= BATCH_SIZE
    requires IsBatch(rows - {id}, from, batch) && !Selected(batch, id)
    ensures IsBatch(rows, from, batch)
  {
    hide Readable;
    var stuck := Stuck(dec, rows, at);
    if forall x :: x in stuck ==> Selected(batch, x) {
      AllStuck(dec, rows, at, batch);
    } else {
      var x :| x in stuck && !Selected(batch, x);
      assert x in rows - {id} && Due((rows - {id})[x], from);
    }
  }

  lemma AllStuck(dec: Decryption, rows: map<Id, Row>, at: int, batch: seq<Msg>)
    requires |Stuck(dec, rows, at)| >= BATCH_SIZE >= |batch| && DistinctIds(batch)
    requires forall x :: x in Stuck(dec, rows, at) ==> Selected(batch, x)
    ensures |batch| == BATCH_SIZE && forall i :: 0 <= i < |batch| ==> batch[i].id in Stuck(dec, rows, at)
  {
    hide Stuck;
    forall x | x in Stuck(dec, rows, at) ensures x in IdsOf(batch) {
      IdsMean(batch, x);
    }
    IdsCount(batch);
    SubsetCount(Stuck(dec, rows, at), IdsOf(batch));
  }

  /** One more round, without arrivals, in which the query gives a chosen answer. */
  lemma OneMoreRound(dec: Decryption, s: Shared, from: int, rounds: seq<Round>, batch: seq<Msg>)
    returns (more: seq<Round>)
    requires AllFair(dec, s, from, rounds) && IsBatch(AfterRounds(dec, s, rounds).rows, from, batch)
    ensures |more| == |rounds| + 1 && AllFair(dec, s, from, more)
    ensures AfterRounds(dec, s, more) == DoTick(dec, AfterRounds(dec, s, rounds), Tick(from, batch))
  {
    hide IsBatch, DoTick;
    var u := AfterRounds(dec, s, rounds);
    var last := Round(map[], Tick(from, batch));
    assert Arrive(u, map[]) == u;
    assert Fair(u, from, last);
    more := rounds + [last];
    TakeOfAppend(rounds, last);
  }

  /** Rounds that leave the row out, as many as one likes. */
  lemma {:induction false} RoundsWithout(dec: Decryption, s: Shared, from: int, id: Id, at: int, n: nat)
    returns (rounds: seq<Round>)
    requires Waits(dec, s.rows, id, at, from) && |Stuck(dec, s.rows, at)| >= BATCH_SIZE
    ensures |rounds| == n && AllFair(dec, s, from, rounds)
    ensures var t := AfterRounds(dec, s, rounds);
      && Waits(dec, t.rows, id, at, from) && Stuck(dec, t.rows, at) == Stuck(dec, s.rows, at)
      && Enqueued(t.jobs, id) == Enqueued(s.jobs, id)
  {
    if n == 0 {
      rounds := [];
    } else {
      hide Waits, Stuck, Ahead, AfterRounds, AllFair, Enqueued, IsBatch, DoTick;
      rounds := RoundsWithout(dec, s, from, id, at, n - 1);
      var u := AfterRounds(dec, s, rounds);
      var batch := BatchWithout(dec, u.rows, id, at, from);
      RoundWithout(dec, u, id, at, from, Tick(from, batch));
      rounds := OneMoreRound(dec, s, from, rounds, batch);
    }
  }

  /** Rows that arrive at the head of the readable ones are worked off first: `id` takes the place of a
      row scheduled at the same time. */
  lemma PutIn(dec: Decryption, rows: map<Id, Row>, id: Id, at: int, from: int, batch: seq<Msg>)
    returns (better: seq<Msg>)
    requires Waits(dec, rows, id, at, from) && IsBatch(rows, from, batch) && !Selected(batch, id)
    requires batch != [] && batch[|batch| - 1].row.scheduledAt == Some(at)
    ensures IsBatch(rows, from, better) && Selected(better, id)
  {
    hide Readable;
    var n := |batch| - 1;
    better := batch[..n] + [Msg(id, rows[id])];
    assert better[n].id == id;
    assert Due(rows[id], from);
    LastOut(rows, id, at, from, batch, better);
  }

  lemma LastOut(rows: map<Id, Row>, id: Id, at: int, from: int, batch: seq<Msg>, better: seq<Msg>)
    requires IsBatch(rows, from, batch) && !Selected(batch, id) && batch != []
    requires id in rows && Due(rows[id], from) && rows[id].scheduledAt == Some(at)
    requires batch[|batch| - 1].row.scheduledAt == Some(at)
    requires better == batch[..|batch| - 1] + [Msg(id, rows[id])]
    ensures IsBatch(rows, from, better)
  {
    hide Due;
    var n := |batch| - 1;
    assert |batch| == BATCH_SIZE;
    forall i | 0 <= i < n ensures Selected(better, batch[i].id) {
      assert better[i] == batch[i];
    }
    forall x | x in rows && Due(rows[x], from) && !Selected(better, x)
      ensures |better| == BATCH_SIZE && forall i :: 0 <= i < |better| ==> NotLater(better[i].row, rows[x])
    {
      if Selected(batch, x) {
        var i :| 0 <= i < |batch| && batch[i].id == x;
      } else {
        assert NotLater(batch[n].row, rows[x]);
      }
    }
  }

  /** The row is enqueued in every sequence of rounds longer than the readable rows ahead of it. */
  ghost predicate GetsThrough(dec: Decryption, s: Shared, from: int, id: Id, at: int) {
    forall rounds :: AllFair(dec, s, from, rounds) && |rounds| > |Ahead(dec, s.rows, id, at)| ==>
      Enqueued(AfterRounds(dec, s, rounds).jobs, id) == Enqueued(s.jobs, id) + 1
  }

  lemma AtLeastTimes(k: nat, c: int)
    requires c >= 1
    ensures k * c >= k
  {
    Arithmetic.MulAtLeast(c, if k >= 1 then k else 1);
  }

  /** The exact condition: a readable row is certain to be enqueued, however the query breaks ties, if and
      only if fewer than a batch of undecryptable rows are scheduled no later than it. */
  lemma GetsThroughIff(dec: Decryption, s: Shared, from: int, id: Id, at: int)
    requires Waits(dec, s.rows, id, at, from)
    ensures GetsThrough(dec, s, from, id, at) <==> |Stuck(dec, s.rows, at)| < BATCH_SIZE
  {
    hide Waits, Stuck, Ahead, AllFair, AfterRounds, Enqueued;
    if |Stuck(dec, s.rows, at)| < BATCH_SIZE {
      forall rounds | AllFair(dec, s, from, rounds) && |rounds| > |Ahead(dec, s.rows, id, at)|
        ensures Enqueued(AfterRounds(dec, s, rounds).jobs, id) == Enqueued(s.jobs, id) + 1
      {
        AtLeastTimes(|rounds|, BATCH_SIZE - |Stuck(dec, s.rows, at)|);
        EnqueuedByRound(dec, s, from, rounds, id, at);
      }
    } else {
      var rounds := RoundsWithout(dec, s, from, id, at, |Ahead(dec, s.rows, id, at)| + 1);
    }
  }

  /** The row is enqueued in some sequence of rounds. */
  ghost predicate MayGetThrough(dec: Decryption, s: Shared, from: int, id: Id) {
    exists rounds :: AllFair(dec, s, from, rounds)
      && Enqueued(AfterRounds(dec, s, rounds).jobs, id) == Enqueued(s.jobs, id) + 1
  }

  /** Every row of the batch is scheduled before the row that was left out. */
  predicate AllBefore(batch: seq<Msg>, at: int) {
    forall i :: 0 <= i < |batch| ==> Due(batch[i].row, at - 1)
  }

  /** A batch that leaves the row out holds earlier rows only, or another one could hold the row. */
  lemma EarlierOrPutIn(dec: Decryption, rows: map<Id, Row>, id: Id, at: int, from: int) returns (batch: seq<Msg>)
    requires Waits(dec, rows, id, at, from)
    ensures IsBatch(rows, from, batch) && (Selected(batch, id) || AllBefore(batch, at))
  {
    hide Readable;
    batch := BatchExists(rows, from);
    if !Selected(batch, id) && !AllBefore(batch, at) {
      LastIsTied(dec, rows, id, at, from, batch);
      batch := PutIn(dec, rows, id, at, from, batch);
    }
  }

  lemma LastIsTied(dec: Decryption, rows: map<Id, Row>, id: Id, at: int, from: int, batch: seq<Msg>)
    requires Waits(dec, rows, id, at, from) && IsBatch(rows, from, batch) && !Selected(batch, id)
    requires !AllBefore(batch, at)
    ensures batch != [] && batch[|batch| - 1].row.scheduledAt == Some(at)
  {
    hide Readable;
    assert Due(rows[id], from);
    var i :| 0 <= i < |batch| && !Due(batch[i].row, at - 1);
    var n := |batch| - 1;
    assert NotLater(batch[i].row, rows[id]) && NotLater(batch[n].row, rows[id]);
    assert i < n ==> NotLater(batch[i].row, batch[n].row);
  }

  /** A round of earlier rows releases a readable one, unless they are all stuck. */
  lemma EarlierShrink(dec: Decryption, u: Shared, id: Id, at: int, from: int, batch: seq<Msg>)
    requires Waits(dec, u.rows, id, at, from) && IsBatch(u.rows, from, batch) && !Selected(batch, id)
    requires AllBefore(batch, at) && |Stuck(dec, u.rows, at - 1)| < BATCH_SIZE
    ensures var t := DoTick(dec, u, Tick(from, batch));
      |Ahead(dec, t.rows, id, at - 1)| < |Ahead(dec, u.rows, id, at - 1)|
  {
    hide Readable, IsBatch, Ahead, Stuck, Waits, HandleAll, WithReleased, JobsOf, IdsOf;
    var good := IdsOf(ReadableOf(dec, batch));
    BatchIsFetched(u.rows, from, batch);
    TickEffect(dec, u, batch, from);
    ReleasedAreAhead(dec, u.rows, id, at, from, from, batch);
    EarlierAreGood(dec, u.rows, id, at, from, batch);
    AheadAfter(dec, u.rows, good, id, at - 1);
    SubsetCount(good, Ahead(dec, u.rows, id, at - 1));
  }

  lemma EarlierAreGood(dec: Decryption, rows: map<Id, Row>, id: Id, at: int, from: int, batch: seq<Msg>)
    requires Fetched(rows, from, batch) && !Selected(batch, id) && AllBefore(batch, at) && |batch| == BATCH_SIZE
    requires |Stuck(dec, rows, at - 1)| < BATCH_SIZE
    ensures IdsOf(ReadableOf(dec, batch)) <= Ahead(dec, rows, id, at - 1) && |IdsOf(ReadableOf(dec, batch))| >= 1
  {
    hide Readable;
    var good := IdsOf(ReadableOf(dec, batch));
    forall x | x in good ensures x in Ahead(dec, rows, id, at - 1) {
      ReadableIds(dec, batch, x);
      assert x == id ==> Selected(batch, id);
    }
    forall x | x in IdsOf(batch) - good ensures x in Stuck(dec, rows, at - 1) {
      IdsMean(batch, x);
      ReadableIds(dec, batch, x);
    }
    IdsCount(batch);
    if good == {} {
      assert IdsOf(batch) - good == IdsOf(batch);
      SubsetCount(IdsOf(batch), Stuck(dec, rows, at - 1));
    }
  }

  lemma AheadAfter(dec: Decryption, rows: map<Id, Row>, ids: set<Id>, id: Id, at: int)
    ensures Ahead(dec, WithReleased(rows, ids), id, at) == Ahead(dec, rows, id, at) - ids
  {
    hide Readable;
  }

  /** From a state reached by some rounds on to one where the row is enqueued. */
  lemma {:induction false} Onward(dec: Decryption, s: Shared, from: int, id: Id, at: int, rounds: seq<Round>)
    returns (more: seq<Round>)
    requires AllFair(dec, s, from, rounds)
    requires var u := AfterRounds(dec, s, rounds);
      && Waits(dec, u.rows, id, at, from) && |Stuck(dec, u.rows, at - 1)| < BATCH_SIZE
      && Enqueued(u.jobs, id) == Enqueued(s.jobs, id)
    ensures AllFair(dec, s, from, more)
    ensures Enqueued(AfterRounds(dec, s, more).jobs, id) == Enqueued(s.jobs, id) + 1
    decreases |Ahead(dec, AfterRounds(dec, s, rounds).rows, id, at - 1)|
  {
    hide Waits, Stuck, Ahead, AfterRounds, AllFair, Enqueued, IsBatch, DoTick;
    var u := AfterRounds(dec, s, rounds);
    var batch := EarlierOrPutIn(dec, u.rows, id, at, from);
    more := OneMoreRound(dec, s, from, rounds, batch);
    if Selected(batch, id) {
      WaitsMeans(dec, u.rows, id, at, from);
      RoundWith(dec, u, id, Tick(from, batch));
    } else {
      RoundWithout(dec, u, id, at, from, Tick(from, batch));
      EarlierShrink(dec, u, id, at, from, batch);
      more := Onward(dec, s, from, id, at, more);
    }
  }

  /** The exact condition for a chance: the row may be enqueued, if ties fall well, if and only if fewer
      than a batch of undecryptable rows are scheduled strictly before it. */
  lemma MayGetThroughIff(dec: Decryption, s: Shared, from: int, id: Id, at: int)
    requires Waits(dec, s.rows, id, at, from)
    ensures MayGetThrough(dec, s, from, id) <==> |Stuck(dec, s.rows, at - 1)| < BATCH_SIZE
  {
    hide Waits, Stuck, Enqueued;
    if |Stuck(dec, s.rows, at - 1)| < BATCH_SIZE {
      var rounds := Onward(dec, s, from, id, at, []);
    } else {
      forall rounds | AllFair(dec, s, from, rounds)
        ensures Enqueued(AfterRounds(dec, s, rounds).jobs, id) == Enqueued(s.jobs, id)
      {
        NeverEnqueued(dec, s, from, rounds, id, at);
      }
    }
  }
}
