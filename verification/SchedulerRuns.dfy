/** Any number of schedulers polling one message table while other components insert rows and change
    their status; queries and loop passes interleave freely. */
module SchedulerRuns {
  import opened Common
  import opened Scheduler

  /** One scheduler: the fetched rows it still has to handle, and the time of its query. */
  datatype Poll = Poll(todo: seq<Msg>, at: int)

  datatype State = State(now: nat, shared: Shared, polls: seq<Poll>)

  /** A row enters with a schedule in the future; `Report` is any other component changing a status, none
      of which ever sets it back to scheduled. */
  datatype Action =
    | Tick(seconds: nat)
    | Insert(id: Id, row: Row)
    | Report(id: Id, status: Status)
    | Query(p: nat, batch: seq<Msg>)
    | Handle(p: nat, outcome: RowOutcome)

  function Init(n: nat, now: nat): State {
    State(now, Shared(map[], [], []), seq(n, _ => Poll([], 0)))
  }

  ghost predicate Enabled(s: State, a: Action) {
    match a
    case Tick(_) => true
    case Insert(id, row) => id !in s.shared.rows && (row.scheduledAt.Some? ==> row.scheduledAt.value > s.now)
    case Report(id, status) => id in s.shared.rows && status != Scheduled
    case Query(p, batch) => p < |s.polls| && s.polls[p].todo == [] && IsBatch(s.shared.rows, s.now, batch)
    case Handle(p, _) => p < |s.polls| && s.polls[p].todo != []
  }

  function WithRow(s: State, id: Id, row: Row): State {
    s.(shared := s.shared.(rows := s.shared.rows[id := row]))
  }

  ghost function Step(dec: Decryption, s: State, a: Action): State {
    if !Enabled(s, a) then s
    else
      match a
      case Tick(d) => s.(now := s.now + d)
      case Insert(id, row) => WithRow(s, id, row)
      case Report(id, status) => WithRow(s, id, s.shared.rows[id].(status := status))
      case Query(p, batch) => s.(polls := s.polls[p := Poll(batch, s.now)])
      case Handle(p, outcome) =>
        var Poll(todo, at) := s.polls[p];
        s.(shared := HandleOne(dec, s.shared, todo[0], at, outcome), polls := s.polls[p := Poll(todo[1..], at)])
  }

  ghost function Run(dec: Decryption, s: State, acts: seq<Action>): (r: State)
    ensures |r.polls| == |s.polls|
  {
    if acts == [] then s else Step(dec, Run(dec, s, acts[..|acts| - 1]), acts[|acts| - 1])
  }

  // ---- what every run keeps ----

  function Of(id: Id): Job -> bool {
    (j: Job) => j.id == id
  }

  ghost function Holding(id: Id): Poll -> bool {
    (p: Poll) => Selected(p.todo, id)
  }

  function Enqueued(s: State, id: Id): nat { CountWhere(s.shared.jobs, Of(id)) }

  function Releases(s: State, id: Id): nat { Occurrences(s.shared.released, id) }

  ghost function Holders(s: State, id: Id): nat { CountWhere(s.polls, Holding(id)) }

  ghost predicate IdInv(dec: Decryption, s: State, id: Id) {
    && Enqueued(s, id) + Holders(s, id) <= |s.polls|
    && Releases(s, id) <= 1
    && (id !in s.shared.rows ==> Holders(s, id) == 0)
    && (id !in s.shared.rows || s.shared.rows[id].status == Scheduled || !Readable(dec, s.shared.rows[id]) ==>
          Enqueued(s, id) == 0 && Releases(s, id) == 0)
  }

  ghost predicate PollInv(s: State, p: Poll) {
    && p.at <= s.now
    && (forall i :: 0 <= i < |p.todo| ==> MsgInv(s, p.at, p.todo[i]))
    && (forall i, j :: 0 <= i < j < |p.todo| ==> p.todo[i].id != p.todo[j].id)
  }

  predicate MsgInv(s: State, at: int, m: Msg) {
    && m.id in s.shared.rows && SameContent(m.row, s.shared.rows[m.id])
    && Due(m.row, at)
  }

  predicate SameContent(a: Row, b: Row) {
    a.messageType == b.messageType && a.body == b.body
  }

  predicate JobInv(dec: Decryption, s: State, j: Job) {
    && j.id in s.shared.rows
    && Plaintext(dec, s.shared.rows[j.id].body) == Some(j.text)
    && j.lane == LaneOf(s.shared.rows[j.id].messageType) && j.maxAge == MaxAgeOf(s.shared.rows[j.id].messageType)
    && j.scheduledFor.Some? && j.scheduledFor.value <= j.releasedAt <= s.now
  }

  ghost predicate Inv(dec: Decryption, s: State) {
    && (forall p :: 0 <= p < |s.polls| ==> PollInv(s, s.polls[p]))
    && (forall i :: 0 <= i < |s.shared.jobs| ==> JobInv(dec, s, s.shared.jobs[i]))
    && (forall id: Id :: IdInv(dec, s, id))
  }

  /** Rows may be added and change status, the clock may advance; content stays. */
  predicate Grows(s: State, t: State) {
    && s.now <= t.now
    && forall id :: id in s.shared.rows ==> id in t.shared.rows && SameContent(s.shared.rows[id], t.shared.rows[id])
  }

  lemma GrowthKeepsPoll(s: State, t: State, p: Poll)
    requires PollInv(s, p) && Grows(s, t)
    ensures PollInv(t, p)
  {
    hide Due;
  }

  lemma GrowthKeepsJob(dec: Decryption, s: State, t: State, j: Job)
    requires JobInv(dec, s, j) && Grows(s, t)
    ensures JobInv(dec, t, j)
  {
  }

  /** Nothing but the clock and one row changes. */
  lemma RowKeepsInv(dec: Decryption, s: State, id: Id, row: Row)
    requires Inv(dec, s)
    requires id in s.shared.rows ==> SameContent(s.shared.rows[id], row) && row.status != Scheduled
    ensures Inv(dec, WithRow(s, id, row))
  {
    hide PollInv, JobInv;
    var t := WithRow(s, id, row);
    forall x: Id ensures IdInv(dec, t, x) {
      assert IdInv(dec, s, x);
    }
    forall p | 0 <= p < |t.polls| ensures PollInv(t, t.polls[p]) {
      GrowthKeepsPoll(s, t, s.polls[p]);
    }
    forall i | 0 <= i < |t.shared.jobs| ensures JobInv(dec, t, t.shared.jobs[i]) {
      GrowthKeepsJob(dec, s, t, s.shared.jobs[i]);
    }
  }

  lemma TickKeepsInv(dec: Decryption, s: State, d: nat)
    requires Inv(dec, s)
    ensures Inv(dec, s.(now := s.now + d))
  {
    hide PollInv, JobInv;
    var t := s.(now := s.now + d);
    forall x: Id ensures IdInv(dec, t, x) {
      assert IdInv(dec, s, x);
    }
    forall p | 0 <= p < |t.polls| ensures PollInv(t, t.polls[p]) {
      GrowthKeepsPoll(s, t, s.polls[p]);
    }
    forall i | 0 <= i < |t.shared.jobs| ensures JobInv(dec, t, t.shared.jobs[i]) {
      GrowthKeepsJob(dec, s, t, s.shared.jobs[i]);
    }
  }

  lemma QueryKeepsInv(dec: Decryption, s: State, p: nat, batch: seq<Msg>)
    requires Inv(dec, s) && p < |s.polls| && IsBatch(s.shared.rows, s.now, batch)
    ensures Inv(dec, s.(polls := s.polls[p := Poll(batch, s.now)]))
  {
    hide JobInv;
    var t := s.(polls := s.polls[p := Poll(batch, s.now)]);
    assert PollInv(t, Poll(batch, s.now)) by {
      hide NotLater;
    }
    forall q | 0 <= q < |t.polls| ensures PollInv(t, t.polls[q]) {
      hide IsBatch;
      if q != p {
        GrowthKeepsPoll(s, t, s.polls[q]);
      }
    }
    forall i | 0 <= i < |t.shared.jobs| ensures JobInv(dec, t, t.shared.jobs[i]) {
      GrowthKeepsJob(dec, s, t, s.shared.jobs[i]);
    }
    forall x: Id ensures IdInv(dec, t, x) {
      assert IdInv(dec, s, x);
      CountUpdate(s.polls, p, t.polls[p], Holding(x));
      assert Selected(batch, x) ==> x in s.shared.rows && s.shared.rows[x].status == Scheduled;
    }
  }

  /** What one loop pass does to the table and the lanes, whatever its outcome: nothing, or a release of
      a readable row, or its release and its job. */
  lemma HandleEffect(dec: Decryption, s: Shared, m: Msg, now: int, outcome: RowOutcome)
    ensures var t := HandleOne(dec, s, m, now, outcome);
      && (t == s || (Readable(dec, m.row)
            && t.rows == Released(s, m.id).rows && t.released == Released(s, m.id).released
            && (t.jobs == s.jobs || t.jobs == s.jobs + [JobOf(m, Plaintext(dec, m.row.body).value, now)])))
  {
  }

  lemma JobsAfter(dec: Decryption, s: State, t: State, m: Msg, at: int)
    requires Grows(s, t) && MsgInv(s, at, m) && at <= s.now && Readable(dec, m.row)
    requires forall i :: 0 <= i < |s.shared.jobs| ==> JobInv(dec, s, s.shared.jobs[i])
    requires t.shared.jobs == s.shared.jobs
      || t.shared.jobs == s.shared.jobs + [JobOf(m, Plaintext(dec, m.row.body).value, at)]
    ensures forall i :: 0 <= i < |t.shared.jobs| ==> JobInv(dec, t, t.shared.jobs[i])
  {
    forall i | 0 <= i < |t.shared.jobs| ensures JobInv(dec, t, t.shared.jobs[i]) {
      if i < |s.shared.jobs| {
        GrowthKeepsJob(dec, s, t, s.shared.jobs[i]);
      }
    }
  }

  /** The handled row leaves the to-do list; a job for it takes its place. */
  lemma IdAfterHandle(dec: Decryption, s: State, p: nat, outcome: RowOutcome, x: Id)
    requires IdInv(dec, s, x) && p < |s.polls| && s.polls[p].todo != [] && PollInv(s, s.polls[p])
    ensures IdInv(dec, Step(dec, s, Handle(p, outcome)), x)
  {
    var Poll(todo, at) := s.polls[p];
    var m := todo[0];
    var t := Step(dec, s, Handle(p, outcome));
    assert MsgInv(s, at, m);
    CountUpdate(s.polls, p, t.polls[p], Holding(x));
    RemainsSelected(todo, x);
    IdAfterRelease(dec, s, t, m, x) by {
      hide Plaintext;
      HandleEffect(dec, s.shared, m, at, outcome);
    }
  }

  /** Removing the head of a list of distinct rows. */
  lemma RemainsSelected(todo: seq<Msg>, x: Id)
    requires todo != [] && forall i, j :: 0 <= i < j < |todo| ==> todo[i].id != todo[j].id
    ensures Selected(todo[1..], x) <==> Selected(todo, x) && x != todo[0].id
  {
    assert forall i :: 0 <= i < |todo| - 1 ==> todo[1..][i] == todo[i + 1];
    assert Selected(todo, todo[0].id);
    if Selected(todo, x) && x != todo[0].id {
      var i :| 0 <= i < |todo| && todo[i].id == x;
      assert todo[1..][i - 1].id == x;
    }
  }

  lemma CountsAfterRelease(s: Shared, t: Shared, id: Id, x: Id)
    requires t.released == Released(s, id).released
    requires t.jobs == s.jobs || exists j: Job :: j.id == id && t.jobs == s.jobs + [j]
    ensures CountWhere(t.jobs, Of(x)) <= CountWhere(s.jobs, Of(x)) + Bit(x == id)
    ensures Occurrences(t.released, x)
         == Occurrences(s.released, x) + Bit(x == id && x in s.rows && s.rows[x].status == Scheduled)
  {
    TakeOfAppend(s.released, id);
    if j: Job :| j.id == id && t.jobs == s.jobs + [j] {
      TakeOfAppend(s.jobs, j);
    }
  }

  lemma IdAfterRelease(dec: Decryption, s: State, t: State, m: Msg, x: Id)
    requires IdInv(dec, s, x) && |t.polls| == |s.polls|
    requires Holders(t, x) + Bit(x == m.id) == Holders(s, x)
    requires m.id in s.shared.rows && SameContent(m.row, s.shared.rows[m.id])
    requires t.shared == s.shared || (Readable(dec, m.row)
      && t.shared.rows == Released(s.shared, m.id).rows && t.shared.released == Released(s.shared, m.id).released
      && (t.shared.jobs == s.shared.jobs ||
          exists j: Job :: j.id == m.id && t.shared.jobs == s.shared.jobs + [j]))
    ensures IdInv(dec, t, x)
  {
    hide CountWhere, Occurrences;
    if t.shared != s.shared {
      CountsAfterRelease(s.shared, t.shared, m.id, x);
    }
  }

  lemma HandleKeepsInv(dec: Decryption, s: State, p: nat, outcome: RowOutcome)
    requires Inv(dec, s) && p < |s.polls| && s.polls[p].todo != []
    ensures Inv(dec, Step(dec, s, Handle(p, outcome)))
  {
    hide IdInv, JobInv, Plaintext, JobOf;
    var Poll(todo, at) := s.polls[p];
    var t := Step(dec, s, Handle(p, outcome));
    forall x: Id ensures IdInv(dec, t, x) {
      IdAfterHandle(dec, s, p, outcome, x);
    }
    assert MsgInv(s, at, todo[0]);
    HandleEffect(dec, s.shared, todo[0], at, outcome);
    assert Grows(s, t);
    forall q | 0 <= q < |t.polls| ensures PollInv(t, t.polls[q]) {
      GrowthKeepsPoll(s, t, s.polls[q]);
    }
    if t.shared != s.shared {
      JobsAfter(dec, s, t, todo[0], at);
    } else {
      forall i | 0 <= i < |t.shared.jobs| ensures JobInv(dec, t, t.shared.jobs[i]) {
        GrowthKeepsJob(dec, s, t, s.shared.jobs[i]);
      }
    }
  }

  lemma StepKeepsInv(dec: Decryption, s: State, a: Action)
    requires Inv(dec, s)
    ensures Inv(dec, Step(dec, s, a))
  {
    hide Inv, IsBatch, HandleOne;
    if Enabled(s, a) {
      match a
      case Tick(d) => TickKeepsInv(dec, s, d);
      case Insert(id, row) => RowKeepsInv(dec, s, id, row);
      case Report(id, status) => RowKeepsInv(dec, s, id, s.shared.rows[id].(status := status));
      case Query(p, batch) => QueryKeepsInv(dec, s, p, batch);
      case Handle(p, outcome) => HandleKeepsInv(dec, s, p, outcome);
    }
  }

  lemma {:induction false} RunKeepsInv(dec: Decryption, n: nat, now: nat, acts: seq<Action>)
    ensures Inv(dec, Run(dec, Init(n, now), acts)) && |Run(dec, Init(n, now), acts).polls| == n
  {
    if acts == [] {
      forall id: Id ensures IdInv(dec, Init(n, now), id) {
        CountNone(Init(n, now).polls, Holding(id));
      }
    } else {
      hide Inv, Enabled, HandleOne;
      RunKeepsInv(dec, n, now, acts[..|acts| - 1]);
      StepKeepsInv(dec, Run(dec, Init(n, now), acts[..|acts| - 1]), acts[|acts| - 1]);
    }
  }

  /** With `n` schedulers no row is enqueued more than `n` times, so with one scheduler at most once; each
      row is released at most once; a row that cannot be decrypted is neither released nor enqueued. */
  lemma EnqueuedAtMostOncePerScheduler(dec: Decryption, n: nat, now: nat, acts: seq<Action>, id: Id)
    ensures var s := Run(dec, Init(n, now), acts);
      && Enqueued(s, id) <= n
      && Releases(s, id) <= 1
      && (id in s.shared.rows && !Readable(dec, s.shared.rows[id]) ==> Enqueued(s, id) == 0 && Releases(s, id) == 0)
  {
    hide Run;
    RunKeepsInv(dec, n, now, acts);
    assert IdInv(dec, Run(dec, Init(n, now), acts), id);
  }

  /** Every job is its row's plaintext, on the lane and with the age limit of the row's type, and was released
      no earlier than scheduled. */
  lemma NeverEarly(dec: Decryption, n: nat, now: nat, acts: seq<Action>, i: nat)
    requires i < |Run(dec, Init(n, now), acts).shared.jobs|
    ensures var s := Run(dec, Init(n, now), acts); var j := s.shared.jobs[i];
      && j.scheduledFor.Some? && j.scheduledFor.value <= j.releasedAt <= s.now
      && j.id in s.shared.rows && IsTextOf(dec, s.shared.rows[j.id].body, j.text)
      && Routed(s.shared.rows[j.id].messageType, j.lane, j.maxAge)
  {
    hide Run;
    RunKeepsInv(dec, n, now, acts);
  }

  // ---- what goes wrong ----

  /** The row is out of schedule and no scheduler will handle it again. */
  ghost predicate Gone(s: State, id: Id) {
    id in s.shared.rows && s.shared.rows[id].status != Scheduled && Holders(s, id) == 0
  }

  lemma GoneStaysGone(dec: Decryption, s: State, a: Action, id: Id)
    requires Inv(dec, s) && Gone(s, id)
    ensures Gone(Step(dec, s, a), id) && Enqueued(Step(dec, s, a), id) == Enqueued(s, id)
  {
    var t := Step(dec, s, a);
    if Enabled(s, a) {
      if a.Query? {
        CountUpdate(s.polls, a.p, t.polls[a.p], Holding(id));
      } else if a.Handle? {
        HandleOther(dec, s, a.p, a.outcome, id);
      }
    }
  }

  lemma NotHeld(s: State, p: nat, id: Id)
    requires p < |s.polls| && Holders(s, id) == 0
    ensures !Selected(s.polls[p].todo, id)
  {
    CountUpdate(s.polls, p, s.polls[p], Holding(id));
    if Selected(s.polls[p].todo, id) {
      CountUpdate(s.polls, p, Poll([], 0), Holding(id));
    }
  }

  lemma HandleOther(dec: Decryption, s: State, p: nat, outcome: RowOutcome, id: Id)
    requires Inv(dec, s) && Gone(s, id) && p < |s.polls| && s.polls[p].todo != []
    ensures var t := Step(dec, s, Handle(p, outcome)); Gone(t, id) && Enqueued(t, id) == Enqueued(s, id)
  {
    hide Plaintext;
    var Poll(todo, at) := s.polls[p];
    var t := Step(dec, s, Handle(p, outcome));
    NotHeld(s, p, id);
    assert Selected(todo, todo[0].id);
    RemainsSelected(todo, id);
    CountUpdate(s.polls, p, t.polls[p], Holding(id));
    HandleEffect(dec, s.shared, todo[0], at, outcome);
    if Readable(dec, todo[0].row) {
      TakeOfAppend(s.shared.jobs, JobOf(todo[0], Plaintext(dec, todo[0].row.body).value, at));
    }
  }

  /** `Run` from any state. */
  lemma {:induction false} GoneForEver(dec: Decryption, s: State, acts: seq<Action>, id: Id)
    requires Inv(dec, s) && Gone(s, id)
    ensures Inv(dec, Run(dec, s, acts))
    ensures Gone(Run(dec, s, acts), id) && Enqueued(Run(dec, s, acts), id) == Enqueued(s, id)
  {
    hide Inv, Gone, Step;
    if acts != [] {
      GoneForEver(dec, s, acts[..|acts| - 1], id);
      StepKeepsInv(dec, Run(dec, s, acts[..|acts| - 1]), acts[|acts| - 1]);
      GoneStaysGone(dec, Run(dec, s, acts[..|acts| - 1]), acts[|acts| - 1], id);
    }
  }

  // ---- a failed enqueue ----

  /** A scheduler other than `p` has fetched the row and not handled it yet. */
  ghost predicate HeldElsewhere(s: State, p: nat, id: Id) {
    exists q :: 0 <= q < |s.polls| && q != p && Selected(s.polls[q].todo, id)
  }

  ghost predicate CanBeEnqueued(dec: Decryption, s: State, id: Id) {
    exists after :: Enqueued(Run(dec, s, after), id) > Enqueued(s, id)
  }

  lemma {:induction false} RunConcat(dec: Decryption, s: State, first: seq<Action>, second: seq<Action>)
    ensures Run(dec, s, first + second) == Run(dec, Run(dec, s, first), second)
  {
    hide Step;
    if second == [] {
      assert first + second == first;
    } else {
      RunConcat(dec, s, first, second[..|second| - 1]);
      assert (first + second)[..|first + second| - 1] == first + second[..|second| - 1];
    }
  }

  lemma RunOne(dec: Decryption, s: State, a: Action)
    ensures Run(dec, s, [a]) == Step(dec, s, a)
  {
    hide Step;
    assert [a][..0] == [];
  }

  lemma HeldIsReadable(dec: Decryption, s: State, q: nat, i: nat)
    requires Inv(dec, s) && q < |s.polls| && i < |s.polls[q].todo|
    ensures var m := s.polls[q].todo[i];
      m.id in s.shared.rows && (Readable(dec, m.row) <==> Readable(dec, s.shared.rows[m.id]))
  {
    hide Plaintext;
    assert MsgInv(s, s.polls[q].at, s.polls[q].todo[i]);
  }

  /** A scheduler that has fetched a readable row gets to it and enqueues it, whatever the row's status
      is by then. */
  lemma {:induction false} WorkOff(dec: Decryption, s: State, q: nat, id: Id) returns (acts: seq<Action>)
    requires Inv(dec, s) && q < |s.polls| && Selected(s.polls[q].todo, id)
    requires id in s.shared.rows && Readable(dec, s.shared.rows[id])
    ensures Enqueued(Run(dec, s, acts), id) == Enqueued(s, id) + 1
    decreases |s.polls[q].todo|
  {
    hide Inv, Readable, Enqueued, Run;
    var todo := s.polls[q].todo;
    HeldIsReadable(dec, s, q, 0);
    if todo[0].id == id {
      acts := [Handle(q, Fine)];
      RunOne(dec, s, acts[0]);
      HandleFineEnqueues(dec, s, q);
    } else {
      var skip := Handle(q, ReleaseFails);
      var t := Step(dec, s, skip);
      StepKeepsInv(dec, s, skip);
      SkipOne(dec, s, q, id);
      var rest := WorkOff(dec, t, q, id);
      acts := [skip] + rest;
      RunOne(dec, s, skip);
      RunConcat(dec, s, [skip], rest);
    }
  }

  lemma SkipOne(dec: Decryption, s: State, q: nat, id: Id)
    requires q < |s.polls| && s.polls[q].todo != [] && s.polls[q].todo[0].id != id
    requires Selected(s.polls[q].todo, id)
    ensures var t := Step(dec, s, Handle(q, ReleaseFails));
      && t.shared == s.shared && |t.polls| == |s.polls| && t.polls[q].todo == s.polls[q].todo[1..]
      && Selected(t.polls[q].todo, id) && Enqueued(t, id) == Enqueued(s, id)
  {
    var todo := s.polls[q].todo;
    var i :| 0 <= i < |todo| && todo[i].id == id;
    assert todo[1..][i - 1].id == id;
  }

  /** The release and the second release where a revert was meant leave the row out of schedule, and
      nobody else's to-do list changes. */
  lemma AfterFailedEnqueue(dec: Decryption, s: State, p: nat)
    requires Inv(dec, s) && p < |s.polls| && s.polls[p].todo != [] && Readable(dec, s.polls[p].todo[0].row)
    ensures var id, u := s.polls[p].todo[0].id, Step(dec, s, Handle(p, EnqueueFails));
      && id in u.shared.rows && u.shared.rows[id].status != Scheduled && Readable(dec, u.shared.rows[id])
      && |u.polls| == |s.polls| && (forall q :: 0 <= q < |s.polls| && q != p ==> u.polls[q] == s.polls[q])
      && !Selected(u.polls[p].todo, id)
  {
    hide Plaintext;
    HeldIsReadable(dec, s, p, 0);
    assert PollInv(s, s.polls[p]);
    assert MsgInv(s, s.polls[p].at, s.polls[p].todo[0]);
    assert Selected(s.polls[p].todo, s.polls[p].todo[0].id);
    RemainsSelected(s.polls[p].todo, s.polls[p].todo[0].id);
  }

  /** The exact condition: after a failed enqueue the row can still be enqueued if and only if another
      scheduler has fetched it already; in any case it stays out of schedule. */
  lemma FailedEnqueueIff(dec: Decryption, n: nat, now: nat, before: seq<Action>, p: nat)
    requires var s := Run(dec, Init(n, now), before);
      p < |s.polls| && s.polls[p].todo != [] && Readable(dec, s.polls[p].todo[0].row)
    ensures var s := Run(dec, Init(n, now), before); var id := s.polls[p].todo[0].id;
      var u := Step(dec, s, Handle(p, EnqueueFails));
      && id in u.shared.rows && u.shared.rows[id].status != Scheduled
      && (CanBeEnqueued(dec, u, id) <==> HeldElsewhere(s, p, id))
  {
    hide Run, Inv, Readable, Enqueued, Step;
    var s := Run(dec, Init(n, now), before);
    RunKeepsInv(dec, n, now, before);
    var id := s.polls[p].todo[0].id;
    var u := Step(dec, s, Handle(p, EnqueueFails));
    StepKeepsInv(dec, s, Handle(p, EnqueueFails));
    AfterFailedEnqueue(dec, s, p);
    if q :| 0 <= q < |s.polls| && q != p && Selected(s.polls[q].todo, id) {
      var after := WorkOff(dec, u, q, id);
      assert Enqueued(Run(dec, u, after), id) > Enqueued(u, id);
    } else {
      CountNone(u.polls, Holding(id));
      forall after ensures Enqueued(Run(dec, u, after), id) == Enqueued(u, id) {
        GoneForEver(dec, u, after, id);
      }
    }
  }

  /** So one scheduler alone loses the row for good. */
  lemma FailedEnqueueLosesTheRow(dec: Decryption, now: nat, before: seq<Action>, after: seq<Action>)
    requires var s := Run(dec, Init(1, now), before);
      && s.polls[0].todo != [] && Readable(dec, s.polls[0].todo[0].row)
    ensures var s := Run(dec, Init(1, now), before); var id := s.polls[0].todo[0].id;
      var t := Run(dec, Step(dec, s, Handle(0, EnqueueFails)), after);
      && Enqueued(t, id) == 0
      && id in t.shared.rows && t.shared.rows[id].status != Scheduled
  {
    hide Run, Step, Inv, Enqueued;
    var s := Run(dec, Init(1, now), before);
    RunKeepsInv(dec, 1, now, before);
    var id := s.polls[0].todo[0].id;
    var u := Step(dec, s, Handle(0, EnqueueFails));
    StepKeepsInv(dec, s, Handle(0, EnqueueFails));
    AfterFailedEnqueue(dec, s, 0);
    CountNone(u.polls, Holding(id));
    GoneForEver(dec, u, after, id);
    NotEnqueuedYet(dec, s, id);
  }

  /** The only scheduler has not enqueued what it still holds. */
  lemma NotEnqueuedYet(dec: Decryption, s: State, id: Id)
    requires Inv(dec, s) && |s.polls| == 1 && s.polls[0].todo != [] && s.polls[0].todo[0].id == id
    requires Readable(dec, s.polls[0].todo[0].row)
    ensures Enqueued(Step(dec, s, Handle(0, EnqueueFails)), id) == 0
  {
    hide Plaintext;
    LoneHolder(dec, s, id);
    assert IdInv(dec, s, id);
  }

  lemma LoneHolder(dec: Decryption, s: State, id: Id)
    requires |s.polls| == 1 && s.polls[0].todo != [] && s.polls[0].todo[0].id == id
    ensures Holders(s, id) == 1 && Selected(s.polls[0].todo, id)
  {
    assert Selected(s.polls[0].todo, id);
    assert s.polls[..0] == [];
  }

  lemma HandleFineEnqueues(dec: Decryption, s: State, p: nat)
    requires Inv(dec, s) && p < |s.polls| && s.polls[p].todo != [] && Readable(dec, s.polls[p].todo[0].row)
    ensures var id := s.polls[p].todo[0].id; var t := Step(dec, s, Handle(p, Fine));
      Enqueued(t, id) == Enqueued(s, id) + 1
  {
    var Poll(todo, at) := s.polls[p];
    assert MsgInv(s, at, todo[0]);
    TakeOfAppend(s.shared.jobs, JobOf(todo[0], Plaintext(dec, todo[0].row.body).value, at));
  }

  /** A full batch of due rows that cannot be decrypted, all earlier than every other waiting row, while
      no scheduler holds a row it could handle. */
  ghost predicate Blocked(dec: Decryption, s: State, bad: set<Id>, until: int) {
    && |bad| >= BATCH_SIZE && until <= s.now
    && (forall id :: id in bad ==>
        id in s.shared.rows && Due(s.shared.rows[id], until) && !Readable(dec, s.shared.rows[id]))
    && (forall id :: id in s.shared.rows && id !in bad ==> !Due(s.shared.rows[id], until))
    && (forall p :: 0 <= p < |s.polls| ==> AllUnreadable(dec, s.polls[p].todo))
  }

  predicate AllUnreadable(dec: Decryption, todo: seq<Msg>) {
    forall i :: 0 <= i < |todo| ==> !Readable(dec, todo[i].row)
  }

  function IdsUpTo(batch: seq<Msg>, n: nat): (ids: set<Id>)
    requires n <= |batch|
    ensures |ids| <= n
    ensures forall i :: 0 <= i < n ==> batch[i].id in ids
    ensures forall id :: id in ids ==> Selected(batch, id)
  {
    if n == 0 then {} else IdsUpTo(batch, n - 1) + {batch[n - 1].id}
  }

  /** A batch with a row that is not bad has no room for all bad rows. */
  lemma LeftOut(bad: set<Id>, batch: seq<Msg>, i: nat) returns (id: Id)
    requires |batch| <= BATCH_SIZE <= |bad| && i < |batch| && batch[i].id !in bad
    ensures id in bad && !Selected(batch, id)
  {
    var others := IdsUpTo(batch, |batch|) - {batch[i].id};
    if bad <= others {
      SubsetCount(bad, others);
    }
    id :| id in bad && id !in others;
  }

  lemma NotLaterThanLeftOut(dec: Decryption, s: State, bad: set<Id>, until: int, batch: seq<Msg>, i: nat, id: Id)
    requires Blocked(dec, s, bad, until) && IsBatch(s.shared.rows, s.now, batch) && i < |batch|
    requires id in bad && !Selected(batch, id)
    ensures Due(batch[i].row, until)
  {
    assert NotLater(batch[i].row, s.shared.rows[id]);
  }

  /** The query returns nothing but the rows that block it. */
  lemma BatchIsBad(dec: Decryption, s: State, bad: set<Id>, until: int, batch: seq<Msg>, i: nat)
    requires Blocked(dec, s, bad, until) && IsBatch(s.shared.rows, s.now, batch) && i < |batch|
    ensures batch[i].id in bad
  {
    if batch[i].id !in bad {
      var id := LeftOut(bad, batch, i);
      NotLaterThanLeftOut(dec, s, bad, until, batch, i, id);
    }
  }

  lemma BlockedQuery(dec: Decryption, s: State, bad: set<Id>, until: int, batch: seq<Msg>)
    requires Blocked(dec, s, bad, until) && IsBatch(s.shared.rows, s.now, batch)
    ensures AllUnreadable(dec, batch)
  {
    forall i | 0 <= i < |batch| ensures !Readable(dec, batch[i].row) {
      BatchIsBad(dec, s, bad, until, batch, i);
    }
  }

  /** No step but a status change of one of the bad rows from outside unblocks the schedulers. */
  lemma BlockedStaysBlocked(dec: Decryption, s: State, bad: set<Id>, until: int, a: Action)
    requires Blocked(dec, s, bad, until) && (a.Report? ==> a.id !in bad)
    ensures Blocked(dec, Step(dec, s, a), bad, until)
    ensures Step(dec, s, a).shared.jobs == s.shared.jobs && Step(dec, s, a).shared.released == s.shared.released
  {
    hide IsBatch, Plaintext;
    var t := Step(dec, s, a);
    if Enabled(s, a) {
      if a.Query? {
        BlockedQuery(dec, s, bad, until, a.batch);
      } else if a.Handle? {
        var todo := s.polls[a.p].todo;
        assert AllUnreadable(dec, todo);
        HandleEffect(dec, s.shared, todo[0], s.polls[a.p].at, a.outcome);
        assert !Readable(dec, todo[0].row);
        assert t.shared == s.shared;
      }
    }
  }

  /** Fifty undecryptable rows at the head of the schedule stop every scheduler for good: whatever else
      arrives or happens, nothing is released or enqueued again until one of those rows is changed. */
  lemma {:induction false} PoisonedBatchBlocksForEver(dec: Decryption, s: State, bad: set<Id>, until: int,
                                                      acts: seq<Action>)
    requires Blocked(dec, s, bad, until)
    requires forall i :: 0 <= i < |acts| && acts[i].Report? ==> acts[i].id !in bad
    ensures Blocked(dec, Run(dec, s, acts), bad, until)
    ensures var t := Run(dec, s, acts); t.shared.jobs == s.shared.jobs && t.shared.released == s.shared.released
  {
    hide Blocked, Step;
    if acts != [] {
      PoisonedBatchBlocksForEver(dec, s, bad, until, acts[..|acts| - 1]);
      BlockedStaysBlocked(dec, Run(dec, s, acts[..|acts| - 1]), bad, until, acts[|acts| - 1]);
    }
  }

  // ---- the object is one of the interleavings ----

  function Passes(p: nat, outcomes: seq<RowOutcome>): (acts: seq<Action>)
    ensures |acts| == |outcomes|
  {
    seq(|outcomes|, i requires 0 <= i < |outcomes| => Handle(p, outcomes[i]))
  }

  lemma {:induction false} PassesHandleAll(dec: Decryption, s: State, p: nat, outcomes: seq<RowOutcome>)
    requires p < |s.polls| && |outcomes| <= |s.polls[p].todo|
    ensures var Poll(todo, at) := s.polls[p]; var n := |outcomes|;
      Run(dec, s, Passes(p, outcomes)) == State(s.now, HandleAll(dec, s.shared, todo[..n], at, outcomes),
                                                s.polls[p := Poll(todo[n..], at)])
  {
    hide HandleOne, Enabled;
    var Poll(todo, at) := s.polls[p];
    if outcomes != [] {
      hide Step;
      var n := |outcomes| - 1;
      PassesHandleAll(dec, s, p, outcomes[..n]);
      var u := Run(dec, s, Passes(p, outcomes[..n]));
      assert Passes(p, outcomes)[..n] == Passes(p, outcomes[..n]) && Passes(p, outcomes)[n] == Handle(p, outcomes[n]);
      assert todo[..n + 1][..n] == todo[..n] && todo[..n + 1][n] == todo[n];
      assert todo[n..][1..] == todo[n + 1..] && todo[n..][0] == todo[n];
      OnePass(dec, u, p, outcomes[n]);
      assert u.polls[p := Poll(todo[n + 1..], at)] == s.polls[p := Poll(todo[n + 1..], at)];
    } else {
      assert todo[..0] == [] && todo[0..] == todo;
      assert s.polls[p := Poll(todo[0..], at)] == s.polls;
    }
  }

  lemma OnePass(dec: Decryption, s: State, p: nat, outcome: RowOutcome)
    requires p < |s.polls| && s.polls[p].todo != []
    ensures var Poll(todo, at) := s.polls[p];
      Step(dec, s, Handle(p, outcome))
      == State(s.now, HandleOne(dec, s.shared, todo[0], at, outcome), s.polls[p := Poll(todo[1..], at)])
  {
    hide HandleOne;
  }

  /** A query followed by its loop passes without interference is one tick of the object. */
  lemma TickIsRun(dec: Decryption, s: State, p: nat, batch: seq<Msg>, outcomes: seq<RowOutcome>)
    requires p < |s.polls| && s.polls[p].todo == [] && IsBatch(s.shared.rows, s.now, batch) && |outcomes| == |batch|
    ensures Run(dec, Step(dec, s, Query(p, batch)), Passes(p, outcomes))
         == State(s.now, HandleAll(dec, s.shared, batch, s.now, outcomes), s.polls[p := Poll([], s.now)])
  {
    hide IsBatch;
    var t := Step(dec, s, Query(p, batch));
    PassesHandleAll(dec, t, p, outcomes);
    assert batch[..|batch|] == batch && batch[|batch|..] == [];
  }
}
