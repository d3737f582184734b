/** The scheduler's poll: fetch a batch of due rows, and release and enqueue them one by one. */
module Scheduler {
  import opened Common
  import opened Lanes

  type Id = string

  datatype Status = Scheduled | Pending | Delivered | Failed

  datatype Row = Row(status: Status, scheduledAt: Option<int>, messageType: string, body: string)

  /** A row as the query returned it. */
  datatype Msg = Msg(id: Id, row: Row)

  datatype Job = Job(id: Id, lane: Lane, maxAge: Option<int>, text: string, scheduledFor: Option<int>, releasedAt: int)

  /** The encryption manager, when one is configured, may refuse a body. */
  type Decryption = Option<string -> Option<string>>

  const BATCH_SIZE: nat := 50

  /** The message table, the releases that changed a row, and the jobs appended to the lanes. */
  datatype Shared = Shared(rows: map<Id, Row>, released: seq<Id>, jobs: seq<Job>)

  datatype RowOutcome = Fine | ReleaseFails | EnqueueFails

  function Plaintext(dec: Decryption, body: string): Option<string> {
    if dec.Some? && body != "" then dec.value(body) else Some(body)
  }

  predicate Readable(dec: Decryption, row: Row) { Plaintext(dec, row.body).Some? }

  function LaneOf(messageType: string): Lane {
    if messageType == "otp" then Otp else if messageType == "marketing" then Marketing else Transactional
  }

  function MaxAgeOf(messageType: string): Option<int> {
    if messageType == "otp" then Some(90) else if messageType == "marketing" then None else Some(900)
  }

  predicate Due(row: Row, before: int) {
    row.status == Scheduled && row.scheduledAt.Some? && row.scheduledAt.value <= before
  }

  predicate NotLater(a: Row, b: Row) {
    a.scheduledAt.Some? && b.scheduledAt.Some? && a.scheduledAt.value <= b.scheduledAt.value
  }

  ghost predicate Selected(batch: seq<Msg>, id: Id) {
    exists i :: 0 <= i < |batch| && batch[i].id == id
  }

  /** An answer the query may give: due rows, earliest first, and none left out while there is room or
      while it is earlier than one returned. Ties may come in any order. */
  ghost predicate IsBatch(rows: map<Id, Row>, before: int, batch: seq<Msg>) {
    && |batch| <= BATCH_SIZE
    && (forall i :: 0 <= i < |batch| ==>
          batch[i].id in rows && rows[batch[i].id] == batch[i].row && Due(batch[i].row, before))
    && (forall i, j :: 0 <= i < j < |batch| ==>
          batch[i].id != batch[j].id && NotLater(batch[i].row, batch[j].row))
    && (forall id :: id in rows && Due(rows[id], before) && !Selected(batch, id) ==>
          && |batch| == BATCH_SIZE
          && forall i :: 0 <= i < |batch| ==> NotLater(batch[i].row, rows[id]))
  }

  function Released(s: Shared, id: Id): Shared {
    if id in s.rows && s.rows[id].status == Scheduled
    then s.(rows := s.rows[id := s.rows[id].(status := Pending, scheduledAt := None)], released := s.released + [id])
    else s
  }

  function JobOf(msg: Msg, text: string, now: int): Job {
    Job(msg.id, LaneOf(msg.row.messageType), MaxAgeOf(msg.row.messageType), text, msg.row.scheduledAt, now)
  }

  /** The body is decrypted when encryption is configured and there is something to decrypt. */
  predicate IsTextOf(dec: Decryption, body: string, text: string) {
    if dec.Some? && body != "" then dec.value(body) == Some(text) else text == body
  }

  /** The lane and the age limit of each type of message. */
  predicate Routed(messageType: string, lane: Lane, maxAge: Option<int>) {
    && (messageType == "otp" ==> lane == Otp && maxAge == Some(90))
    && (messageType == "marketing" ==> lane == Marketing && maxAge == None)
    && (messageType != "otp" && messageType != "marketing" ==> lane == Transactional && maxAge == Some(900))
  }

  /** One pass of the loop. A failed enqueue releases a second time where a revert was meant. */
  function HandleOne(dec: Decryption, s: Shared, msg: Msg, now: int, outcome: RowOutcome): Shared {
    if msg.row.scheduledAt.Some? && msg.row.scheduledAt.value > now then s
    else
      match (Plaintext(dec, msg.row.body), outcome)
      case (None, _) => s
      case (_, ReleaseFails) => s
      case (_, EnqueueFails) => Released(Released(s, msg.id), msg.id)
      case (Some(text), Fine) =>
        var s1 := Released(s, msg.id);
        s1.(jobs := s1.jobs + [JobOf(msg, text, now)])
  }

  /** What one pass of the loop does: a row that is early, that cannot be decrypted or whose release fails is
      left as it is; any other is out of schedule afterwards, and appended to its lane if that works. */
  lemma PassMeans(dec: Decryption, s: Shared, msg: Msg, now: int, outcome: RowOutcome)
    ensures var t := HandleOne(dec, s, msg, now, outcome); var row := msg.row;
      var early := row.scheduledAt.Some? && row.scheduledAt.value > now;
      var unreadable := dec.Some? && row.body != "" && dec.value(row.body) == None;
      if early || unreadable || outcome == ReleaseFails then t == s
      else
        && t.rows.Keys == s.rows.Keys
        && (forall id :: id in s.rows && id != msg.id ==> t.rows[id] == s.rows[id])
        && (msg.id in s.rows ==>
              t.rows[msg.id] == if s.rows[msg.id].status != Scheduled then s.rows[msg.id]
                                else s.rows[msg.id].(status := Pending, scheduledAt := None))
        && t.released == s.released
              + (if msg.id in s.rows && s.rows[msg.id].status == Scheduled then [msg.id] else [])
        && (outcome == EnqueueFails ==> t.jobs == s.jobs)
        && (outcome == Fine ==>
              && |t.jobs| == |s.jobs| + 1 && t.jobs[..|s.jobs|] == s.jobs
              && IsJobOf(dec, msg, now, t.jobs[|s.jobs|]))
  {
  }

  predicate IsJobOf(dec: Decryption, msg: Msg, now: int, j: Job) {
    && j.id == msg.id && j.scheduledFor == msg.row.scheduledAt && j.releasedAt == now
    && IsTextOf(dec, msg.row.body, j.text) && Routed(msg.row.messageType, j.lane, j.maxAge)
  }

  function HandleAll(dec: Decryption, s: Shared, batch: seq<Msg>, now: int, outcomes: seq<RowOutcome>): Shared
    requires |outcomes| == |batch|
  {
    if batch == [] then s
    else
      var n := |batch| - 1;
      HandleOne(dec, HandleAll(dec, s, batch[..n], now, outcomes[..n]), batch[n], now, outcomes[n])
  }

  /** The object behind one poll, together with the table and the lanes it writes. */
  class Poller {
    var rows: map<Id, Row>
    var jobs: seq<Job>
    ghost var released: seq<Id>
    const dec: Decryption

    ghost function State(): Shared
      reads this
    {
      Shared(rows, released, jobs)
    }

    /** The query, by repeated choice of an earliest remaining due row. */
    method GetScheduledMessages(before: int) returns (msgs: seq<Msg>)
      ensures |msgs| <= 50
      ensures forall i :: 0 <= i < |msgs| ==>
        && msgs[i].row.status == Scheduled && msgs[i].row.scheduledAt.Some? && msgs[i].row.scheduledAt.value <= before
        && msgs[i].id in rows && rows[msgs[i].id] == msgs[i].row
      ensures forall i, j :: 0 <= i < j < |msgs| ==>
        msgs[i].id != msgs[j].id && msgs[i].row.scheduledAt.value <= msgs[j].row.scheduledAt.value
      ensures forall id, at :: id in rows && rows[id].status == Scheduled && rows[id].scheduledAt == Some(at)
                               && at <= before && !Selected(msgs, id) ==>
        |msgs| == 50 && forall i :: 0 <= i < |msgs| ==> msgs[i].row.scheduledAt.value <= at
      ensures IsBatch(rows, before, msgs)
    {
      msgs := [];
      var left := set id | id in rows && Due(rows[id], before);
      while left != {} && |msgs| < BATCH_SIZE
        invariant |msgs| <= BATCH_SIZE
        invariant Chosen(rows, before, msgs, left)
        decreases |left|
      {
        EarliestExists(rows, left, before);
        var next :| next in left && Earliest(rows, left, next);
        ChooseNext(rows, before, msgs, left, next);
        msgs := msgs + [Msg(next, rows[next])];
        left := left - {next};
      }
    }

    method ReleaseScheduled(id: Id)
      modifies this
      ensures rows == if id in old(rows) && old(rows)[id].status == Scheduled
                      then old(rows)[id := old(rows)[id].(status := Pending, scheduledAt := None)] else old(rows)
      ensures State() == Released(old(State()), id)
    {
      if id in rows && rows[id].status == Scheduled {
        rows := rows[id := rows[id].(status := Pending, scheduledAt := None)];
        released := released + [id];
      }
    }

    /** One pass of the loop. */
    method HandleMessage(msg: Msg, now: int, outcome: RowOutcome)
      modifies this
      ensures State() == HandleOne(dec, old(State()), msg, now, outcome)
    {
      if msg.row.scheduledAt.Some? && msg.row.scheduledAt.value > now {
        return;
      }
      var lane, maxAge;
      match msg.row.messageType {
        case "otp" => lane, maxAge := Otp, Some(90);
        case "marketing" => lane, maxAge := Marketing, None;
        case _ => lane, maxAge := Transactional, Some(900);
      }
      var plaintext := msg.row.body;
      if dec.Some? && |msg.row.body| > 0 {
        var decrypted := dec.value(msg.row.body);
        if decrypted.None? {
          return;
        }
        plaintext := decrypted.value;
      }
      if outcome == ReleaseFails {
        return;
      }
      hide Released;
      ReleaseScheduled(msg.id);
      if outcome == EnqueueFails {
        ReleaseScheduled(msg.id);
        return;
      }
      jobs := jobs + [Job(msg.id, lane, maxAge, plaintext, msg.row.scheduledAt, now)];
    }

    /** One tick, with the outcome each row's release and enqueue is going to have. */
    method ProcessDue(now: int, outcomes: seq<RowOutcome>) returns (msgs: seq<Msg>)
      requires |outcomes| == BATCH_SIZE
      modifies this
      ensures IsBatch(old(rows), now, msgs)
      ensures State() == HandleAll(dec, old(State()), msgs, now, outcomes[..|msgs|])
    {
      hide HandleOne, Due, NotLater;
      msgs := GetScheduledMessages(now);
      for i := 0 to |msgs|
        invariant State() == HandleAll(dec, old(State()), msgs[..i], now, outcomes[..i])
      {
        assert msgs[..i + 1][..i] == msgs[..i] && outcomes[..i + 1][..i] == outcomes[..i];
        HandleMessage(msgs[i], now, outcomes[i]);
      }
      assert msgs[..|msgs|] == msgs;
    }
  }

  predicate Earliest(rows: map<Id, Row>, ids: set<Id>, e: Id)
    requires e in rows && forall id :: id in ids ==> id in rows
  {
    forall id :: id in ids ==> NotLater(rows[e], rows[id])
  }

  /** The query's answer so far: `msgs` in order, all of them no later than what is left. */
  ghost predicate Chosen(rows: map<Id, Row>, before: int, msgs: seq<Msg>, left: set<Id>) {
    && (forall id :: id in left ==> id in rows && Due(rows[id], before))
    && (forall i :: 0 <= i < |msgs| ==>
          msgs[i].id in rows && rows[msgs[i].id] == msgs[i].row && Due(msgs[i].row, before))
    && (forall i :: 0 <= i < |msgs| ==>
          msgs[i].id !in left && forall id :: id in left ==> NotLater(msgs[i].row, rows[id]))
    && (forall i, j :: 0 <= i < j < |msgs| ==>
          msgs[i].id != msgs[j].id && NotLater(msgs[i].row, msgs[j].row))
    && (forall id :: id in rows && Due(rows[id], before) && id !in left ==> Selected(msgs, id))
  }

  lemma ChooseNext(rows: map<Id, Row>, before: int, msgs: seq<Msg>, left: set<Id>, next: Id)
    requires Chosen(rows, before, msgs, left) && next in left && Earliest(rows, left, next)
    ensures Chosen(rows, before, msgs + [Msg(next, rows[next])], left - {next})
  {
    hide Due, NotLater;
    var more := msgs + [Msg(next, rows[next])];
    forall id | id in rows && Due(rows[id], before) && id !in left - {next} ensures Selected(more, id) {
      assert more[|msgs|].id == next;
      if id != next {
        var i :| 0 <= i < |msgs| && msgs[i].id == id;
        assert more[i].id == id;
      }
    }
  }

  lemma {:induction false} EarliestExists(rows: map<Id, Row>, ids: set<Id>, before: int)
    requires ids != {} && forall id :: id in ids ==> id in rows && Due(rows[id], before)
    ensures exists e :: e in ids && Earliest(rows, ids, e)
    decreases |ids|
  {
    var x :| x in ids;
    if ids == {x} {
      assert Earliest(rows, ids, x);
    } else {
      var rest := ids - {x};
      EarliestExists(rows, rest, before);
      var e :| e in rest && Earliest(rows, rest, e);
      assert Earliest(rows, ids, if NotLater(rows[x], rows[e]) then x else e);
    }
  }

  /** The query always has an answer. */
  lemma BatchExists(rows: map<Id, Row>, before: int) returns (msgs: seq<Msg>)
    ensures IsBatch(rows, before, msgs)
  {
    msgs := [];
    var left := set id | id in rows && Due(rows[id], before);
    while left != {} && |msgs| < BATCH_SIZE
      invariant |msgs| <= BATCH_SIZE
      invariant Chosen(rows, before, msgs, left)
      decreases |left|
    {
      EarliestExists(rows, left, before);
      var next :| next in left && Earliest(rows, left, next);
      ChooseNext(rows, before, msgs, left, next);
      msgs := msgs + [Msg(next, rows[next])];
      left := left - {next};
    }
  }
}
