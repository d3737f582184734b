/** App releases: guarded row updates, where publishing takes two of them. */
module Releases {
  import opened Common

  type Id = string

  datatype Status = Draft | PendingApproval | Approved | Rejected | Released

  datatype Apk = Apk(url: string, filename: string, sizeBytes: int)

  datatype Row = Row(status: Status, apk: Apk, approvedBy: Option<string>, rejectedBy: Option<string>,
                     releasedAt: Option<int>)

  type Table = map<Id, Row>

  predicate Has(rows: Table, id: Id, status: Status) {
    id in rows && rows[id].status == status
  }

  // ---- the single statements ----

  function Inserted(rows: Table, id: Id, apk: Apk): Table {
    rows[id := Row(Draft, apk, None, None, None)]
  }

  function Submitted(rows: Table, id: Id): Table {
    if Has(rows, id, Draft) then rows[id := rows[id].(status := PendingApproval)] else rows
  }

  function ApprovedBy(rows: Table, id: Id, who: string): Table {
    if Has(rows, id, PendingApproval) then rows[id := rows[id].(status := Approved, approvedBy := Some(who))] else rows
  }

  function RejectedBy(rows: Table, id: Id, who: string): Table {
    if Has(rows, id, PendingApproval) then rows[id := rows[id].(status := Rejected, rejectedBy := Some(who))] else rows
  }

  /** First statement of Release: every released row goes back to approved. */
  function Unreleased(rows: Table): Table {
    map id | id in rows :: if rows[id].status == Released then rows[id].(status := Approved) else rows[id]
  }

  /** Second statement of Release. */
  function Published(rows: Table, id: Id, now: int): Table {
    if Has(rows, id, Approved) then rows[id := rows[id].(status := Released, releasedAt := Some(now))] else rows
  }

  function Deleted(rows: Table, id: Id): Table {
    if Has(rows, id, Draft) || Has(rows, id, Rejected) then rows - {id} else rows
  }

  function WithApk(rows: Table, id: Id, apk: Apk): Table {
    if Has(rows, id, Draft) then rows[id := rows[id].(apk := apk)] else rows
  }

  class AppReleaseService {
    var rows: Table

    method Create(id: Id, apk: Apk)
      requires id !in rows
      modifies this
      ensures rows == Inserted(old(rows), id, apk)
    {
      rows := rows[id := Row(Draft, apk, None, None, None)];
    }

    method SubmitForApproval(id: Id)
      modifies this
      ensures rows == Submitted(old(rows), id)
    {
      if id in rows && rows[id].status == Draft {
        rows := rows[id := rows[id].(status := PendingApproval)];
      }
    }

    method Approve(id: Id, who: string)
      modifies this
      ensures rows == ApprovedBy(old(rows), id, who)
    {
      if id in rows && rows[id].status == PendingApproval {
        rows := rows[id := rows[id].(status := Approved, approvedBy := Some(who))];
      }
    }

    method Reject(id: Id, who: string)
      modifies this
      ensures rows == RejectedBy(old(rows), id, who)
    {
      if id in rows && rows[id].status == PendingApproval {
        rows := rows[id := rows[id].(status := Rejected, rejectedBy := Some(who))];
      }
    }

    /** Afterwards exactly this row is released if it was approved or already released, and no row is
        otherwise: naming any other row takes the current release away. */
    method Release(id: Id, now: int)
      modifies this
      ensures rows == Published(Unreleased(old(rows)), id, now)
      ensures ReleasedIds(rows) == if Has(old(rows), id, Approved) || Has(old(rows), id, Released) then {id} else {}
    {
      rows := map x | x in rows :: if rows[x].status == Released then rows[x].(status := Approved) else rows[x];
      if id in rows && rows[id].status == Approved {
        rows := rows[id := rows[id].(status := Released, releasedAt := Some(now))];
      }
    }

    method Delete(id: Id)
      modifies this
      ensures rows == Deleted(old(rows), id)
    {
      if id in rows && (rows[id].status == Draft || rows[id].status == Rejected) {
        rows := rows - {id};
      }
    }

    method UpdateAPK(id: Id, apk: Apk)
      modifies this
      ensures rows == WithApk(old(rows), id, apk)
    {
      if id in rows && rows[id].status == Draft {
        rows := rows[id := rows[id].(apk := apk)];
      }
    }
  }

  function ReleasedIds(rows: Table): set<Id> {
    set id | id in rows && rows[id].status == Released
  }

  // ---- any number of overlapping callers ----

  datatype Event = WasSubmitted(id: Id, apk: Apk) | WasApproved(id: Id, who: string, apk: Apk)

  /** A Release call before and after its first statement. */
  datatype Call = Started(id: Id) | Cleared(id: Id)

  /** `used` are all ids ever given to a row; `log` the submissions and approvals that took effect; `peak`
      the largest number of Release calls that ran at the same time; `failures` the first statements that
      failed unnoticed since the last one that worked. */
  datatype State = State(rows: Table, used: set<Id>, log: seq<Event>, calls: map<nat, Call>, peak: nat, failures: nat)

  datatype Action =
    | Create(id: Id, apk: Apk)
    | Submit(id: Id)
    | Approve(id: Id, who: string)
    | Reject(id: Id, who: string)
    | Delete(id: Id)
    | UpdateAPK(id: Id, apk: Apk)
    | Begin(call: nat, id: Id)
    | Clear(call: nat, ok: bool)
    | Publish(call: nat, now: int)

  const INIT := State(map[], {}, [], map[], 0, 0)

  function Step(s: State, a: Action): State {
    match a
    case Create(id, apk) =>
      if id in s.used then s else s.(rows := Inserted(s.rows, id, apk), used := s.used + {id})
    case Submit(id) =>
      s.(rows := Submitted(s.rows, id),
         log := if Has(s.rows, id, Draft) then s.log + [WasSubmitted(id, s.rows[id].apk)] else s.log)
    case Approve(id, who) =>
      s.(rows := ApprovedBy(s.rows, id, who),
         log := if Has(s.rows, id, PendingApproval) then s.log + [WasApproved(id, who, s.rows[id].apk)] else s.log)
    case Reject(id, who) => s.(rows := RejectedBy(s.rows, id, who))
    case Delete(id) => s.(rows := Deleted(s.rows, id))
    case UpdateAPK(id, apk) => s.(rows := WithApk(s.rows, id, apk))
    case Begin(c, id) =>
      if c in s.calls then s else s.(calls := s.calls[c := Started(id)], peak := Max(s.peak, |s.calls| + 1))
    case Clear(c, ok) =>
      if c in s.calls && s.calls[c].Started? then
        s.(calls := s.calls[c := Cleared(s.calls[c].id)],
           rows := if ok then Unreleased(s.rows) else s.rows,
           failures := if ok then 0 else s.failures + 1)
      else s
    case Publish(c, now) =>
      if c in s.calls && s.calls[c].Cleared?
      then s.(calls := s.calls - {c}, rows := Published(s.rows, s.calls[c].id, now))
      else s
  }

  function Run(s: State, acts: seq<Action>): State {
    if acts == [] then s else Step(Run(s, acts[..|acts| - 1]), acts[|acts| - 1])
  }

  // ---- how a row moves ----

  /** The status a statement leaves a row in. */
  predicate StatusMoves(before: Status, a: Action, id: Id, after: Status) {
    match a
    case Submit(x) => after == if x == id && before == Draft then PendingApproval else before
    case Approve(x, _) => after == if x == id && before == PendingApproval then Approved else before
    case Reject(x, _) => after == if x == id && before == PendingApproval then Rejected else before
    case Clear(_, ok) => after == before || (ok && before == Released && after == Approved)
    case Publish(_, _) => after == before || (before == Approved && after == Released)
    case _ => after == before
  }

  /** Only drafts and rejected rows can be deleted, only a draft's file can be exchanged, and each row keeps who
      approved and who rejected it last and when it was last released. */
  lemma RowMovesExactly(s: State, a: Action, id: Id)
    requires id in s.rows && s.rows.Keys <= s.used
    ensures var t, row := Step(s, a), s.rows[id];
      && (id !in t.rows <==> a == Delete(id) && (row.status == Draft || row.status == Rejected))
      && (id in t.rows ==>
            var after := t.rows[id];
            && StatusMoves(row.status, a, id, after.status)
            && after.apk == (if a.UpdateAPK? && a.id == id && row.status == Draft then a.apk else row.apk)
            && after.approvedBy == (if a.Approve? && after.status != row.status then Some(a.who) else row.approvedBy)
            && after.rejectedBy == (if a.Reject? && after.status != row.status then Some(a.who) else row.rejectedBy)
            && after.releasedAt == if row.status == Approved && after.status == Released then Some(a.now)
                                   else row.releasedAt)
  {
  }

  /** A new row is a draft that nobody has approved, rejected or released. */
  lemma NewRowIsDraft(s: State, id: Id, apk: Apk)
    requires id !in s.used
    ensures Step(s, Create(id, apk)).rows == s.rows[id := Row(Draft, apk, None, None, None)]
  {
  }

  /** A publication that finds its row approved releases it, and clearing takes every release back. */
  lemma PublishingMeans(s: State, c: nat, id: Id, now: int)
    requires c in s.calls
    ensures var t := Step(s, Publish(c, now));
      s.calls[c] == Cleared(id) && Has(s.rows, id, Approved) ==> Has(t.rows, id, Released)
    ensures s.calls[c] == Started(id) ==> ReleasedIds(Step(s, Clear(c, true)).rows) == {}
    ensures Step(s, Clear(c, false)).rows == s.rows
  {
  }

  // ---- how many rows are released ----

  function ClearedCalls(calls: map<nat, Call>): set<nat> {
    set c | c in calls && calls[c].Cleared?
  }

  /** Each released row and each call about to release one is paid for by an overlapping call or by a
      failed first statement. */
  ghost predicate Paid(s: State) {
    && |s.calls| <= s.peak
    && |ReleasedIds(s.rows)| + |ClearedCalls(s.calls)| <= s.peak + s.failures
  }

  lemma PublishedIds(rows: Table, id: Id, now: int)
    ensures ReleasedIds(Published(rows, id, now)) == ReleasedIds(rows) + (if Has(rows, id, Approved) then {id} else {})
  {
  }

  lemma UnreleasedIds(rows: Table)
    ensures ReleasedIds(Unreleased(rows)) == {}
  {
  }

  /** The other statements leave the released rows alone. */
  lemma SameReleased(rows: Table, id: Id, who: string, apk: Apk)
    ensures id !in rows ==> ReleasedIds(Inserted(rows, id, apk)) == ReleasedIds(rows)
    ensures ReleasedIds(Submitted(rows, id)) == ReleasedIds(rows)
    ensures ReleasedIds(ApprovedBy(rows, id, who)) == ReleasedIds(rows)
    ensures ReleasedIds(RejectedBy(rows, id, who)) == ReleasedIds(rows)
    ensures ReleasedIds(Deleted(rows, id)) == ReleasedIds(rows)
    ensures ReleasedIds(WithApk(rows, id, apk)) == ReleasedIds(rows)
  {
  }

  lemma ClearedAfter(calls: map<nat, Call>, c: nat, id: Id)
    ensures c !in calls ==> ClearedCalls(calls[c := Started(id)]) == ClearedCalls(calls)
    ensures ClearedCalls(calls[c := Cleared(id)]) == ClearedCalls(calls) + {c}
    ensures ClearedCalls(calls - {c}) == ClearedCalls(calls) - {c}
    ensures |ClearedCalls(calls)| <= |calls|
  {
    assert ClearedCalls(calls) <= calls.Keys;
    SubsetCount(ClearedCalls(calls), calls.Keys);
  }

  lemma KeysAfter(calls: map<nat, Call>, c: nat, call: Call)
    ensures |calls[c := call]| == |calls| + (if c in calls then 0 else 1)
    ensures |calls - {c}| == |calls| - (if c in calls then 1 else 0)
  {
    assert calls[c := call].Keys == calls.Keys + {c};
    assert (calls - {c}).Keys == calls.Keys - {c};
    assert |calls| == |calls.Keys| && |calls[c := call]| == |calls[c := call].Keys|;
    assert |calls - {c}| == |(calls - {c}).Keys|;
  }

  lemma BeginKeepsPaid(s: State, c: nat, id: Id)
    requires Paid(s)
    ensures Paid(Step(s, Begin(c, id)))
  {
    hide ReleasedIds, ClearedCalls;
    ClearedAfter(s.calls, c, id);
    KeysAfter(s.calls, c, Started(id));
  }

  lemma ClearKeepsPaid(s: State, c: nat, ok: bool)
    requires Paid(s) && c in s.calls && s.calls[c].Started?
    ensures Paid(Step(s, Clear(c, ok)))
  {
    hide ReleasedIds, ClearedCalls, Unreleased;
    var call := Cleared(s.calls[c].id);
    ClearedAfter(s.calls, c, call.id);
    ClearedAfter(s.calls[c := call], c, call.id);
    KeysAfter(s.calls, c, call);
    UnreleasedIds(s.rows);
  }

  lemma PublishKeepsPaid(s: State, c: nat, now: int)
    requires Paid(s) && c in s.calls && s.calls[c].Cleared?
    ensures Paid(Step(s, Publish(c, now)))
  {
    hide ReleasedIds, ClearedCalls, Published;
    var id := s.calls[c].id;
    ClearedAfter(s.calls, c, id);
    KeysAfter(s.calls, c, s.calls[c]);
    PublishedIds(s.rows, id, now);
    InCleared(s.calls, c);
  }

  lemma CallsKeepPaid(s: State, a: Action)
    requires Paid(s) && (a.Begin? || a.Clear? || a.Publish?)
    ensures Paid(Step(s, a))
  {
    hide Paid;
    if a.Begin? {
      BeginKeepsPaid(s, a.call, a.id);
    } else if a.call in s.calls {
      if a.Clear? && s.calls[a.call].Started? {
        ClearKeepsPaid(s, a.call, a.ok);
      } else if a.Publish? && s.calls[a.call].Cleared? {
        PublishKeepsPaid(s, a.call, a.now);
      }
    }
  }

  lemma InCleared(calls: map<nat, Call>, c: nat)
    requires c in calls && calls[c].Cleared?
    ensures c in ClearedCalls(calls)
  {
  }

  lemma StepKeepsPaid(s: State, a: Action)
    requires Paid(s) && s.rows.Keys <= s.used
    ensures Paid(Step(s, a)) && Step(s, a).rows.Keys <= Step(s, a).used
  {
    hide ReleasedIds, ClearedCalls, Paid;
    if a.Begin? || a.Clear? || a.Publish? {
      CallsKeepPaid(s, a);
    } else {
      SameReleased(s.rows, a.id, if a.Approve? || a.Reject? then a.who else "",
                   if a.Create? || a.UpdateAPK? then a.apk else Apk("", "", 0));
      PaidDependsOn(s, Step(s, a));
    }
  }

  lemma PaidDependsOn(s: State, t: State)
    requires Paid(s) && ReleasedIds(t.rows) == ReleasedIds(s.rows)
    requires t.calls == s.calls && t.peak == s.peak && t.failures == s.failures
    ensures Paid(t)
  {
  }

  lemma {:induction false} RunKeepsPaid(acts: seq<Action>)
    ensures Paid(Run(INIT, acts)) && Run(INIT, acts).rows.Keys <= Run(INIT, acts).used
  {
    hide Step;
    if acts == [] {
      assert ReleasedIds(INIT.rows) == {} && ClearedCalls(INIT.calls) == {};
    } else {
      RunKeepsPaid(acts[..|acts| - 1]);
      StepKeepsPaid(Run(INIT, acts[..|acts| - 1]), acts[|acts| - 1]);
    }
  }

  /** The released rows never outnumber the Release calls that overlapped, plus the first statements that
      failed since one last worked; so one caller at a time, without such failures, keeps at most one. */
  lemma ReleasedAtMostOverlap(acts: seq<Action>)
    ensures var s := Run(INIT, acts);
      && |ReleasedIds(s.rows)| <= s.peak + s.failures
      && (s.peak <= 1 && s.failures == 0 ==>
          forall x, y :: x in ReleasedIds(s.rows) && y in ReleasedIds(s.rows) ==> x == y)
  {
    hide Run;
    RunKeepsPaid(acts);
    var r := ReleasedIds(Run(INIT, acts).rows);
    forall x, y | x in r && y in r && |r| <= 1 ensures x == y {
      SubsetCount({x, y}, r);
    }
  }

  // ---- a run that reaches the bound ----

  ghost predicate Reachable(s: State) {
    exists acts :: Run(INIT, acts) == s
  }

  lemma ReachStep(s: State, a: Action)
    requires Reachable(s)
    ensures Reachable(Step(s, a))
  {
    hide Step;
    var acts :| Run(INIT, acts) == s;
    TakeOfAppend(acts, a);
    assert Run(INIT, acts + [a]) == Step(s, a);
  }

  function Name(i: nat): Id { seq(i, _ => 'r') }

  /** `n` approved rows, nothing released. */
  ghost predicate Stocked(s: State, n: nat) {
    && (forall i: nat :: i < n ==> Has(s.rows, Name(i), Approved))
    && (forall id :: id in s.rows ==> s.rows[id].status != Released)
    && (forall id :: id in s.used ==> |id| < n)
  }

  /** `begun` Release calls, the first `cleared` of them past their first statement. */
  ghost predicate InFlight(calls: map<nat, Call>, begun: nat, cleared: nat) {
    && (forall c: nat :: c in calls <==> c < begun)
    && (forall c: nat :: c < begun ==> calls[c] == if c < cleared then Cleared(Name(c)) else Started(Name(c)))
    && |calls| == begun
  }

  ghost predicate Stage(s: State, n: nat, begun: nat, cleared: nat) {
    Stocked(s, n) && InFlight(s.calls, begun, cleared) && s.peak == begun && s.failures == 0
  }

  lemma StockOneMore(s: State, n: nat, apk: Apk)
    requires Stocked(s, n)
    ensures var id := Name(n);
      && id !in s.used
      && Stocked(s.(rows := s.rows[id := Row(Approved, apk, Some(""), None, None)], used := s.used + {id}), n + 1)
  {
    assert forall i: nat :: |Name(i)| == i;
  }

  lemma ThreeSteps(s: State, id: Id, apk: Apk)
    requires id !in s.used
    ensures var t := Step(Step(Step(s, Create(id, apk)), Submit(id)), Approve(id, ""));
      && t.rows == s.rows[id := Row(Approved, apk, Some(""), None, None)] && t.used == s.used + {id}
      && t.calls == s.calls && t.peak == s.peak && t.failures == s.failures
  {
    var s1 := Step(s, Create(id, apk));
    assert s1.rows == s.rows[id := Row(Draft, apk, None, None, None)];
    var s2 := Step(s1, Submit(id));
    assert s2.rows == s.rows[id := Row(PendingApproval, apk, None, None, None)];
  }

  lemma StockDependsOn(s: State, t: State, n: nat)
    requires Stocked(s, n) && t.rows == s.rows && t.used == s.used
    ensures Stocked(t, n)
  {
  }

  lemma AddApproved(s: State, n: nat) returns (t: State)
    requires Reachable(s) && Stage(s, n, 0, 0)
    ensures Reachable(t) && Stage(t, n + 1, 0, 0)
  {
    hide Reachable, Stocked, InFlight, Step;
    var id, apk := Name(n), Apk("", "", 0);
    ReachStep(s, Create(id, apk));
    ReachStep(Step(s, Create(id, apk)), Submit(id));
    ReachStep(Step(Step(s, Create(id, apk)), Submit(id)), Approve(id, ""));
    t := Step(Step(Step(s, Create(id, apk)), Submit(id)), Approve(id, ""));
    StockOneMore(s, n, apk);
    ThreeSteps(s, id, apk);
    StockDependsOn(s.(rows := t.rows, used := t.used), t, n + 1);
  }

  lemma BeginsOneMore(calls: map<nat, Call>, begun: nat)
    requires InFlight(calls, begun, 0)
    ensures begun !in calls && InFlight(calls[begun := Started(Name(begun))], begun + 1, 0)
  {
    KeysAfter(calls, begun, Started(Name(begun)));
    hide Name;
    var more := calls[begun := Started(Name(begun))];
    forall c: nat
      ensures (c in more <==> c < begun + 1) && (c < begun + 1 ==> more[c] == Started(Name(c)))
    {
      assert c in calls <==> c < begun;
      assert c != begun && c in calls ==> more[c] == calls[c];
    }
    assert |more| == begun + 1;
  }

  lemma ClearsOneMore(calls: map<nat, Call>, n: nat, cleared: nat)
    requires InFlight(calls, n, cleared) && cleared < n
    ensures cleared in calls && calls[cleared] == Started(Name(cleared))
    ensures InFlight(calls[cleared := Cleared(Name(cleared))], n, cleared + 1)
  {
    KeysAfter(calls, cleared, Cleared(Name(cleared)));
  }

  lemma BeginOne(s: State, n: nat, begun: nat) returns (t: State)
    requires Reachable(s) && Stage(s, n, begun, 0) && begun < n
    ensures Reachable(t) && Stage(t, n, begun + 1, 0)
  {
    hide Reachable, Stocked, InFlight;
    BeginsOneMore(s.calls, begun);
    assert |s.calls| == begun by { CountsCalls(s.calls, begun, 0); }
    ReachStep(s, Begin(begun, Name(begun)));
    t := Step(s, Begin(begun, Name(begun)));
    StockDependsOn(s, t, n);
  }

  lemma CountsCalls(calls: map<nat, Call>, begun: nat, cleared: nat)
    requires InFlight(calls, begun, cleared)
    ensures |calls| == begun
  {
  }

  lemma NothingToWithdraw(s: State, n: nat)
    requires Stocked(s, n)
    ensures Unreleased(s.rows) == s.rows
  {
  }

  lemma ClearOne(s: State, stock: nat, n: nat, cleared: nat) returns (t: State)
    requires Reachable(s) && Stage(s, stock, n, cleared) && cleared < n
    ensures Reachable(t) && Stage(t, stock, n, cleared + 1)
  {
    hide Reachable, Stocked, InFlight, Unreleased;
    ClearsOneMore(s.calls, n, cleared);
    ReachStep(s, Clear(cleared, true));
    t := Step(s, Clear(cleared, true));
    NothingToWithdraw(s, stock);
    StockDependsOn(s, t, stock);
  }

  lemma {:induction false} AllApproved(n: nat) returns (s: State)
    ensures Reachable(s) && Stage(s, n, 0, 0)
  {
    hide Stage, Reachable;
    if n == 0 {
      s := INIT;
      StartsEmpty();
    } else {
      s := AllApproved(n - 1);
      s := AddApproved(s, n - 1);
    }
  }

  lemma StartsEmpty()
    ensures Reachable(INIT) && Stage(INIT, 0, 0, 0)
  {
    hide Reachable, Run;
    StartIsReachable();
  }

  lemma StartIsReachable()
    ensures Reachable(INIT)
  {
    assert Run(INIT, []) == INIT;
  }

  lemma {:induction false} AllBegun(n: nat, begun: nat) returns (s: State)
    requires begun <= n
    ensures Reachable(s) && Stage(s, n, begun, 0)
  {
    hide Stage, Reachable;
    if begun == 0 {
      s := AllApproved(n);
    } else {
      s := AllBegun(n, begun - 1);
      s := BeginOne(s, n, begun - 1);
    }
  }

  lemma {:induction false} AllCleared(stock: nat, n: nat, cleared: nat) returns (s: State)
    requires cleared <= n <= stock
    ensures Reachable(s) && Stage(s, stock, n, cleared)
  {
    hide Stage, Reachable;
    if cleared == 0 {
      s := AllBegun(stock, n);
    } else {
      s := AllCleared(stock, n, cleared - 1);
      s := ClearOne(s, stock, n, cleared - 1);
    }
  }

  /** Of `stock` rows the first `k` are released and the others approved. */
  ghost predicate Shelf(rows: Table, stock: nat, k: nat) {
    && k <= stock
    && (forall i: nat :: i < stock ==> Has(rows, Name(i), if i < k then Released else Approved))
    && (forall id :: id in rows && rows[id].status == Released ==> |id| < k && id == Name(|id|))
  }

  function NamesBelow(k: nat): (ids: set<Id>)
    ensures |ids| == k
    ensures forall id :: id in ids <==> |id| < k && id == Name(|id|)
  {
    if k == 0 then {} else NamesBelow(k - 1) + {Name(k - 1)}
  }

  lemma ShelfCounts(rows: Table, stock: nat, k: nat)
    requires Shelf(rows, stock, k)
    ensures |ReleasedIds(rows)| == k
  {
    var names := NamesBelow(k);
    forall id ensures id in ReleasedIds(rows) <==> id in names {
      assert |id| < k && id == Name(|id|) ==> Has(rows, Name(|id|), Released);
    }
    assert ReleasedIds(rows) == names;
  }

  /** Publishing the next approved row. */
  lemma ShelveNext(rows: Table, stock: nat, k: nat)
    requires Shelf(rows, stock, k) && k < stock
    ensures Shelf(Published(rows, Name(k), 0), stock, k + 1)
  {
    assert forall i: nat :: |Name(i)| == i;
  }

  lemma StockIsShelf(s: State, stock: nat)
    requires Stocked(s, stock)
    ensures Shelf(s.rows, stock, 0)
  {
  }

  /** The calls from the `k`th on are past their first statement; those before have released their rows. */
  ghost predicate Publishing(s: State, stock: nat, n: nat, k: nat) {
    && Shelf(s.rows, stock, k) && k <= n && s.peak == n && s.failures == 0
    && (forall c: nat :: c in s.calls <==> k <= c < n)
    && (forall c: nat :: k <= c < n ==> s.calls[c] == Cleared(Name(c)))
  }

  /** No call runs, `k` rows are released, `k - n` first statements have failed since one last worked. */
  ghost predicate Piled(s: State, stock: nat, n: nat, k: nat) {
    Shelf(s.rows, stock, k) && n <= k && s.peak == n && s.failures == k - n && s.calls == map[]
  }

  lemma PublishOne(s: State, stock: nat, n: nat, k: nat) returns (t: State)
    requires Reachable(s) && Publishing(s, stock, n, k) && k < n <= stock
    ensures Reachable(t) && Publishing(t, stock, n, k + 1)
  {
    hide Reachable, Shelf, Published;
    ReachStep(s, Publish(k, 0));
    t := Step(s, Publish(k, 0));
    ShelveNext(s.rows, stock, k);
    assert t.rows == Published(s.rows, Name(k), 0) && t.calls == s.calls - {k};
  }

  lemma {:induction false} PublishAll(stock: nat, n: nat, k: nat) returns (s: State)
    requires k <= n <= stock
    ensures Reachable(s) && Publishing(s, stock, n, k)
  {
    hide Reachable, Publishing, Stage;
    if k == 0 {
      s := AllCleared(stock, n, n);
      ClearedIsPublishing(s, stock, n);
    } else {
      s := PublishAll(stock, n, k - 1);
      s := PublishOne(s, stock, n, k - 1);
    }
  }

  lemma ClearedIsPublishing(s: State, stock: nat, n: nat)
    requires Stage(s, stock, n, n)
    ensures Publishing(s, stock, n, 0)
  {
    StockIsShelf(s, stock);
    hide Stocked, Shelf;
  }

  function FailingCall(s: State, id: Id): State {
    Step(Step(Step(s, Begin(0, id)), Clear(0, false)), Publish(0, 0))
  }

  lemma FailingCallEffect(s: State, id: Id)
    requires s.calls == map[] && s.peak >= 1
    ensures var t := FailingCall(s, id);
      && t.rows == Published(s.rows, id, 0) && t.calls == map[]
      && t.peak == s.peak && t.failures == s.failures + 1
  {
    hide Published, Unreleased;
    var s1 := Step(s, Begin(0, id));
    assert s1 == s.(calls := map[0 := Started(id)]);
    var s2 := Step(s1, Clear(0, false));
    assert s2 == s.(calls := map[0 := Cleared(id)], failures := s.failures + 1);
    assert map[0 := Cleared(id)] - {0} == map[];
  }

  /** A single call whose first statement fails unnoticed: one more released row. */
  lemma PileOne(s: State, stock: nat, n: nat, k: nat) returns (t: State)
    requires Reachable(s) && Piled(s, stock, n, k) && 1 <= n && k < stock
    ensures Reachable(t) && Piled(t, stock, n, k + 1)
  {
    hide Reachable, Shelf, Published, Step;
    ReachStep(s, Begin(0, Name(k)));
    ReachStep(Step(s, Begin(0, Name(k))), Clear(0, false));
    ReachStep(Step(Step(s, Begin(0, Name(k))), Clear(0, false)), Publish(0, 0));
    t := FailingCall(s, Name(k));
    FailingCallEffect(s, Name(k));
    ShelveNext(s.rows, stock, k);
  }

  lemma {:induction false} PileUp(stock: nat, n: nat, k: nat) returns (s: State)
    requires n <= k <= stock && (n == 0 ==> k == 0)
    ensures Reachable(s) && Piled(s, stock, n, k)
  {
    hide Reachable, Piled, Publishing;
    if k == n {
      s := PublishAll(stock, n, n);
      AllPublished(s, stock, n);
    } else {
      s := PileUp(stock, n, k - 1);
      s := PileOne(s, stock, n, k - 1);
    }
  }

  lemma AllPublished(s: State, stock: nat, n: nat)
    requires Publishing(s, stock, n, n)
    ensures Piled(s, stock, n, n)
  {
    hide Shelf;
  }

  /** The bound is reached, for every number of overlapping calls and every number of failed first
      statements that some call can make. */
  lemma BoundIsReached(n: nat, failures: nat) returns (acts: seq<Action>)
    requires n == 0 ==> failures == 0
    ensures var s := Run(INIT, acts);
      s.peak == n && s.failures == failures && |ReleasedIds(s.rows)| == n + failures
  {
    hide Run, Shelf;
    var s := PileUp(n + failures, n, n + failures);
    ShelfCounts(s.rows, n + failures, n + failures);
    acts :| Run(INIT, acts) == s;
  }

  /** First statements only fail in calls. */
  lemma {:induction false} FailuresNeedCalls(acts: seq<Action>)
    ensures var s := Run(INIT, acts); s.peak == 0 ==> s.calls == map[] && s.failures == 0
  {
    if acts != [] {
      hide Step;
      FailuresNeedCalls(acts[..|acts| - 1]);
      StepNeedsCalls(Run(INIT, acts[..|acts| - 1]), acts[|acts| - 1]);
    }
  }

  lemma StepNeedsCalls(s: State, a: Action)
    requires s.peak == 0 ==> s.calls == map[] && s.failures == 0
    ensures var t := Step(s, a); t.peak == 0 ==> t.calls == map[] && t.failures == 0
  {
    hide Inserted, Submitted, ApprovedBy, RejectedBy, Deleted, WithApk, Unreleased, Published;
  }

  /** With at most `p` Release calls at a time and at most `f` first statements failed since one last
      worked, there is never more than one released row. */
  ghost predicate AtMostOneReleased(p: nat, f: nat) {
    forall acts :: Run(INIT, acts).peak <= p && Run(INIT, acts).failures <= f ==>
      |ReleasedIds(Run(INIT, acts).rows)| <= 1
  }

  /** The exact condition: at most one row is ever released if and only if Release calls neither overlap nor
      fail in their first statement (or there are none). */
  lemma OneReleasedIff(p: nat, f: nat)
    ensures AtMostOneReleased(p, f) <==> p == 0 || p + f <= 1
  {
    hide Run, ReleasedIds;
    if p == 0 || p + f <= 1 {
      forall acts | Run(INIT, acts).peak <= p && Run(INIT, acts).failures <= f
        ensures |ReleasedIds(Run(INIT, acts).rows)| <= 1
      {
        ReleasedAtMostOverlap(acts);
        FailuresNeedCalls(acts);
      }
    } else if p >= 2 {
      var acts := BoundIsReached(2, 0);
    } else {
      var acts := BoundIsReached(1, 1);
    }
  }

  // ---- what is released is what was approved ----

  predicate SubmittedAt(log: seq<Event>, i: int, id: Id, apk: Apk) {
    0 <= i < |log| && log[i] == WasSubmitted(id, apk)
  }

  predicate ApprovedAt(log: seq<Event>, j: int, id: Id, who: string, apk: Apk) {
    0 <= j < |log| && log[j] == WasApproved(id, who, apk)
  }

  ghost predicate WasEverSubmitted(log: seq<Event>, id: Id, apk: Apk) {
    exists i :: SubmittedAt(log, i, id, apk)
  }

  ghost predicate WasApprovedAfterSubmission(log: seq<Event>, id: Id, who: Option<string>, apk: Apk) {
    who.Some? && exists i, j :: i < j && SubmittedAt(log, i, id, apk) && ApprovedAt(log, j, id, who.value, apk)
  }

  /** A row's status is backed by the log, for the very file the row carries. */
  ghost predicate Vouched(log: seq<Event>, id: Id, row: Row) {
    match row.status
    case Draft => true
    case PendingApproval => WasEverSubmitted(log, id, row.apk)
    case Rejected => WasEverSubmitted(log, id, row.apk)
    case _ => WasApprovedAfterSubmission(log, id, row.approvedBy, row.apk)
  }

  ghost predicate AllVouched(s: State) {
    forall id :: id in s.rows ==> Vouched(s.log, id, s.rows[id])
  }

  lemma LongerLogVouches(log: seq<Event>, e: Event, id: Id, row: Row)
    requires Vouched(log, id, row)
    ensures Vouched(log + [e], id, row)
  {
    var more := log + [e];
    if i :| SubmittedAt(log, i, id, row.apk) {
      assert SubmittedAt(more, i, id, row.apk);
    }
    if row.approvedBy.Some? {
      if i, j :| i < j && SubmittedAt(log, i, id, row.apk) && ApprovedAt(log, j, id, row.approvedBy.value, row.apk) {
        assert SubmittedAt(more, i, id, row.apk) && ApprovedAt(more, j, id, row.approvedBy.value, row.apk);
      }
    }
  }

  lemma SubmitVouches(log: seq<Event>, id: Id, row: Row)
    ensures Vouched(log + [WasSubmitted(id, row.apk)], id, row.(status := PendingApproval))
  {
    assert SubmittedAt(log + [WasSubmitted(id, row.apk)], |log|, id, row.apk);
  }

  lemma ApproveVouches(log: seq<Event>, id: Id, row: Row, who: string)
    requires row.status == PendingApproval && Vouched(log, id, row)
    ensures Vouched(log + [WasApproved(id, who, row.apk)], id, row.(status := Approved, approvedBy := Some(who)))
  {
    var more := log + [WasApproved(id, who, row.apk)];
    var i :| SubmittedAt(log, i, id, row.apk);
    assert SubmittedAt(more, i, id, row.apk) && ApprovedAt(more, |log|, id, who, row.apk);
  }

  /** The two rows are vouched for by the same events. */
  predicate SameStanding(a: Row, b: Row) {
    && a.apk == b.apk && a.approvedBy == b.approvedBy
    && (a.status == b.status || (a.status in {Approved, Released} && b.status in {Approved, Released})
        || (a.status == PendingApproval && b.status == Rejected))
  }

  predicate Recorded(s: State, a: Action) {
    (a.Submit? && Has(s.rows, a.id, Draft)) || (a.Approve? && Has(s.rows, a.id, PendingApproval))
  }

  /** Without a submission or an approval nobody's standing changes. */
  lemma QuietStep(s: State, a: Action, id: Id)
    requires !Recorded(s, a) && id in Step(s, a).rows
    ensures Step(s, a).log == s.log
    ensures Step(s, a).rows[id].status == Draft || (id in s.rows && SameStanding(s.rows[id], Step(s, a).rows[id]))
  {
  }

  lemma RecordedStep(s: State, a: Action)
    requires AllVouched(s) && Recorded(s, a)
    ensures AllVouched(Step(s, a))
  {
    hide WasEverSubmitted, WasApprovedAfterSubmission;
    var t := Step(s, a);
    var e := t.log[|s.log|];
    assert t.log == s.log + [e];
    forall id | id in t.rows ensures Vouched(t.log, id, t.rows[id]) {
      assert Vouched(s.log, id, s.rows[id]);
      if id != a.id {
        LongerLogVouches(s.log, e, id, s.rows[id]);
      } else if a.Submit? {
        SubmitVouches(s.log, id, s.rows[id]);
      } else {
        ApproveVouches(s.log, id, s.rows[id], a.who);
      }
    }
  }

  lemma StepKeepsVouched(s: State, a: Action)
    requires AllVouched(s)
    ensures AllVouched(Step(s, a))
  {
    hide WasEverSubmitted, WasApprovedAfterSubmission, Step;
    if Recorded(s, a) {
      RecordedStep(s, a);
    } else {
      var t := Step(s, a);
      forall id | id in t.rows ensures Vouched(t.log, id, t.rows[id]) {
        QuietStep(s, a, id);
        assert id in s.rows ==> Vouched(s.log, id, s.rows[id]);
      }
    }
  }

  lemma {:induction false} RunKeepsVouched(acts: seq<Action>)
    ensures AllVouched(Run(INIT, acts))
  {
    hide Step, Vouched;
    if acts != [] {
      RunKeepsVouched(acts[..|acts| - 1]);
      StepKeepsVouched(Run(INIT, acts[..|acts| - 1]), acts[|acts| - 1]);
    }
  }

  /** Whatever the callers interleave, a released row was submitted and then approved by the account its
      row names, both times carrying exactly the file it is released with. */
  lemma ReleasedIsApprovedFile(acts: seq<Action>, id: Id)
    requires id in ReleasedIds(Run(INIT, acts).rows)
    ensures var s := Run(INIT, acts); var row := s.rows[id];
      && row.approvedBy.Some?
      && exists i, j :: i < j && SubmittedAt(s.log, i, id, row.apk)
          && ApprovedAt(s.log, j, id, row.approvedBy.value, row.apk)
  {
    hide Run;
    RunKeepsVouched(acts);
    assert Vouched(Run(INIT, acts).log, id, Run(INIT, acts).rows[id]);
  }
}
