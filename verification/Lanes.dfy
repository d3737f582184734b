/** The priority queue on append-only streams with one consumer group. */
module Lanes {
  import opened Common

  /** The three configured lanes; `Unknown` stands for any other lane name a caller may pass. */
  datatype Lane = Otp | Transactional | Marketing | Unknown(name: string)

  datatype QueueMessage = QueueMessage(id: string, attempts: int)

  /** What a stream entry's payload field decodes to. */
  datatype Payload = Undecodable | Decoded(msg: QueueMessage)

  /** A stream entry is named by its lane and its position in that lane's stream. */
  datatype Ref = Ref(lane: Lane, pos: nat)

  datatype DeadRecord = DeadRecord(msg: QueueMessage, lane: Lane)

  /** Everything the stream server holds, plus the shared skip counter. */
  datatype Streams = Streams(
    log: map<Lane, seq<Payload>>,
    cursor: map<Lane, nat>,
    pending: set<Ref>,
    acked: set<Ref>,
    dead: seq<DeadRecord>,
    skips: int)

  const EMPTY_STREAMS := Streams(map[], map[], {}, {}, [], 0)

  function Log(s: Streams, lane: Lane): seq<Payload> {
    if lane in s.log then s.log[lane] else []
  }

  function Cursor(s: Streams, lane: Lane): nat {
    if lane in s.cursor then s.cursor[lane] else 0
  }

  /** The payload of an entry that exists. */
  function EntryOf(s: Streams, ref: Ref): Option<Payload> {
    if ref.pos < |Log(s, ref.lane)| then Some(Log(s, ref.lane)[ref.pos]) else None
  }

  predicate Undelivered(s: Streams, ref: Ref) {
    Cursor(s, ref.lane) <= ref.pos < |Log(s, ref.lane)|
  }

  // ---- atomic server operations ----

  function XAdd(s: Streams, lane: Lane, p: Payload): Streams {
    s.(log := s.log[lane := Log(s, lane) + [p]])
  }

  /** XREADGROUP with ">" and COUNT 1: hand out the group's next entry, if there is one. */
  function XReadGroup(s: Streams, lane: Lane): (Streams, Option<Ref>) {
    var c := Cursor(s, lane);
    if c < |Log(s, lane)| then
      (s.(cursor := s.cursor[lane := c + 1], pending := s.pending + {Ref(lane, c)}), Some(Ref(lane, c)))
    else
      (s, None)
  }

  function XAck(s: Streams, ref: Ref): Streams {
    if ref in s.pending then s.(pending := s.pending - {ref}, acked := s.acked + {ref}) else s
  }

  /** The skip test at the head of the lane loop: the new counter and whether the lane is skipped. */
  function Gate(s: Streams, ratio: int, lane: Lane): (Streams, bool) {
    if lane == Marketing && s.skips < ratio then (s.(skips := s.skips + 1), true)
    else if lane != Otp then (s.(skips := 0), false)
    else (s, false)
  }

  // ---- one lane visit, and a whole pass over a lane list ----

  datatype Outcome = Skipped | NoEntry | Discarded(ref: Ref) | Delivered(ref: Ref, msg: QueueMessage) | ReadError

  function Visit(s: Streams, ratio: int, lane: Lane): (Streams, Outcome) {
    var (s1, skip) := Gate(s, ratio, lane);
    if skip then (s1, Skipped)
    else if lane.Unknown? then (s1, ReadError)
    else
      var (s2, got) := XReadGroup(s1, lane);
      match got
      case None => (s2, NoEntry)
      case Some(ref) =>
        match Log(s2, lane)[ref.pos]
        case Undecodable => (XAck(s2, ref), Discarded(ref))
        case Decoded(msg) => (s2, Delivered(ref, msg))
  }

  predicate PassesOver(o: Outcome) { o.Skipped? || o.NoEntry? || o.Discarded? }

  /** The streams after the first `k` lanes of a pass have been visited. */
  function After(s: Streams, ratio: int, lanes: seq<Lane>, k: nat): Streams
    requires k <= |lanes|
  {
    if k == 0 then s else Visit(After(s, ratio, lanes, k - 1), ratio, lanes[k - 1]).0
  }

  function OutcomeAt(s: Streams, ratio: int, lanes: seq<Lane>, k: nat): Outcome
    requires k < |lanes|
  {
    Visit(After(s, ratio, lanes, k), ratio, lanes[k]).1
  }

  /** The pass goes beyond the first `k` lanes. */
  ghost predicate Reaches(s: Streams, ratio: int, lanes: seq<Lane>, k: nat)
    requires k <= |lanes|
  {
    forall i :: 0 <= i < k ==> PassesOver(OutcomeAt(s, ratio, lanes, i))
  }

  datatype DequeueResult = Got(lane: Lane, msg: QueueMessage, ref: Ref) | Empty | Failed(lane: Lane)

  /** The index at which a dequeue pass stops: a delivered entry, a read error, or the end of the list. */
  ghost predicate StopsAt(s: Streams, ratio: int, lanes: seq<Lane>, k: nat) {
    && k <= |lanes|
    && Reaches(s, ratio, lanes, k)
    && (k < |lanes| ==> !PassesOver(OutcomeAt(s, ratio, lanes, k)))
  }

  ghost predicate IsDequeue(s: Streams, ratio: int, lanes: seq<Lane>, k: nat, t: Streams, r: DequeueResult) {
    && StopsAt(s, ratio, lanes, k)
    && match r
       case Empty => k == |lanes| && t == After(s, ratio, lanes, k)
       case Got(lane, msg, ref) =>
         k < |lanes| && lanes[k] == lane && OutcomeAt(s, ratio, lanes, k) == Delivered(ref, msg)
         && t == After(s, ratio, lanes, k + 1)
       case Failed(lane) =>
         k < |lanes| && lanes[k] == lane && OutcomeAt(s, ratio, lanes, k) == ReadError
         && t == After(s, ratio, lanes, k + 1)
  }

  /** Positions `i < k` of the lane list that hold `lane`. */
  function VisitsOf(lanes: seq<Lane>, lane: Lane, k: nat): nat
    requires k <= |lanes|
  {
    Occurrences(lanes[..k], lane)
  }

  /** What one visit may change: only its own lane's cursor, by at most one, and an entry taken but
      not returned is acknowledged at once. */
  lemma VisitFrame(s: Streams, ratio: int, lane: Lane)
    ensures var (t, o) := Visit(s, ratio, lane);
      && (forall l :: Log(t, l) == Log(s, l))
      && (forall l :: l != lane ==> Cursor(t, l) == Cursor(s, l))
      && Cursor(s, lane) <= Cursor(t, lane) <= Cursor(s, lane) + 1
      && t.dead == s.dead
      && (PassesOver(o) && Ref(lane, Cursor(s, lane)) !in s.pending ==> t.pending == s.pending)
      && (o.NoEntry? ==> Cursor(s, lane) >= |Log(s, lane)|)
      && (o.Discarded? || o.Delivered? ==>
            o.ref == Ref(lane, Cursor(s, lane)) && Undelivered(s, o.ref) && Cursor(t, lane) == Cursor(s, lane) + 1)
      && (o.Discarded? ==> Log(s, lane)[o.ref.pos] == Undecodable)
      && (o.Delivered? ==> Log(s, lane)[o.ref.pos] == Decoded(o.msg) && t.pending == s.pending + {o.ref})
  {
    var (s1, skip) := Gate(s, ratio, lane);
    var ref := Ref(lane, Cursor(s, lane));
    assert Log(s1, lane) == Log(s, lane) && Cursor(s1, lane) == Cursor(s, lane);
    if ref !in s.pending {
      assert s.pending + {ref} - {ref} == s.pending;
    }
  }

  /** An undelivered entry is not pending. */
  ghost predicate NothingAheadPending(s: Streams) {
    forall ref :: ref in s.pending ==> ref.pos < Cursor(s, ref.lane)
  }

  /** For every lane list and every stream contents: a pass moves each cursor at most once per
      occurrence of the lane before the stop, changes no stream, and leaves nothing pending behind. */
  lemma {:induction false} PassFrame(s: Streams, ratio: int, lanes: seq<Lane>, k: nat)
    requires k <= |lanes| && Reaches(s, ratio, lanes, k) && NothingAheadPending(s)
    ensures var t := After(s, ratio, lanes, k);
      && NothingAheadPending(t)
      && t.pending == s.pending && t.dead == s.dead
      && (forall l :: Log(t, l) == Log(s, l))
      && (forall l :: Cursor(s, l) <= Cursor(t, l) <= Cursor(s, l) + VisitsOf(lanes, l, k))
  {
    hide Visit, Log, Cursor, Occurrences;
    if k == 0 {
      assert lanes[..0] == [];
      NoVisits(lanes);
    } else {
      PassFrame(s, ratio, lanes, k - 1);
      var t1 := After(s, ratio, lanes, k - 1);
      VisitFrame(t1, ratio, lanes[k - 1]);
      assert PassesOver(OutcomeAt(s, ratio, lanes, k - 1));
      assert Ref(lanes[k - 1], Cursor(t1, lanes[k - 1])) !in t1.pending;
      OneMoreVisit(lanes, k);
    }
  }

  lemma NoVisits(lanes: seq<Lane>)
    ensures forall l :: VisitsOf(lanes, l, 0) == 0
  {
  }

  lemma OneMoreVisit(lanes: seq<Lane>, k: nat)
    requires 0 < k <= |lanes|
    ensures forall l :: VisitsOf(lanes, l, k) == VisitsOf(lanes, l, k - 1) + if l == lanes[k - 1] then 1 else 0
  {
    assert lanes[..k][..k - 1] == lanes[..k - 1];
  }

  /** A dequeue that returns an entry returns the oldest one not yet handed out of its lane and leaves
      exactly that entry newly pending; it takes at most one entry per visit of any lane. */
  lemma DequeueReturnsOldest(s: Streams, ratio: int, lanes: seq<Lane>, k: nat, t: Streams, r: DequeueResult)
    requires IsDequeue(s, ratio, lanes, k, t, r) && r.Got? && NothingAheadPending(s)
    ensures var before := After(s, ratio, lanes, k);
      && r.ref == Ref(lanes[k], Cursor(before, lanes[k]))
      && Undelivered(before, r.ref)
      && (forall p :: Undelivered(before, Ref(r.lane, p)) ==> r.ref.pos <= p)
      && EntryOf(s, r.ref) == Some(Decoded(r.msg))
      && t.pending == s.pending + {r.ref} && r.ref !in s.pending
      && (r.lane !in lanes[..k] ==> r.ref.pos == Cursor(s, r.lane))
    ensures forall l :: Cursor(t, l) <= Cursor(s, l) + VisitsOf(lanes, l, k + 1)
  {
    hide Visit, Log, Cursor, Occurrences;
    PassFrame(s, ratio, lanes, k);
    VisitFrame(After(s, ratio, lanes, k), ratio, lanes[k]);
    OneMoreVisit(lanes, k + 1);
    if r.lane !in lanes[..k] {
      AbsentLane(lanes[..k], r.lane);
    }
  }

  /** A lane is passed over only if the counter skipped it, it had nothing left to read, or it lost one
      undecodable head. */
  lemma PassedOverBecause(s: Streams, ratio: int, lanes: seq<Lane>, k: nat, i: nat)
    requires k <= |lanes| && Reaches(s, ratio, lanes, k) && NothingAheadPending(s) && i < k
    ensures var u, o := After(s, ratio, lanes, i), OutcomeAt(s, ratio, lanes, i);
      var head := EntryOf(s, Ref(lanes[i], Cursor(u, lanes[i])));
      || (o.Skipped? && lanes[i] == Marketing && u.skips < ratio)
      || (o.NoEntry? && head == None)
      || (o.Discarded? && head == Some(Undecodable))
  {
    PassFrame(s, ratio, lanes, i);
    VisitFrame(After(s, ratio, lanes, i), ratio, lanes[i]);
    assert PassesOver(OutcomeAt(s, ratio, lanes, i));
  }

  /** A pass that returns nothing has come past every lane, and one that fails has met an unknown lane. */
  lemma EmptyMeans(s: Streams, ratio: int, lanes: seq<Lane>, k: nat, t: Streams, r: DequeueResult)
    requires IsDequeue(s, ratio, lanes, k, t, r) && NothingAheadPending(s)
    ensures r.Failed? ==> r.lane.Unknown? && r.lane in lanes
    ensures r.Empty? ==> forall i :: 0 <= i < |lanes| ==>
      var u := After(s, ratio, lanes, i);
      || (lanes[i] == Marketing && u.skips < ratio)
      || HeadOf(u, lanes[i]) in {None, Some(Undecodable)}
  {
    hide After, Cursor, Log;
    if r.Empty? {
      forall i | 0 <= i < |lanes| ensures var u := After(s, ratio, lanes, i);
        (lanes[i] == Marketing && u.skips < ratio) || HeadOf(u, lanes[i]) in {None, Some(Undecodable)}
      {
        PassedOverBecause(s, ratio, lanes, k, i);
        PassFrame(s, ratio, lanes, i);
        assert EntryOf(s, Ref(lanes[i], Cursor(After(s, ratio, lanes, i), lanes[i])))
            == HeadOf(After(s, ratio, lanes, i), lanes[i]);
      }
    }
  }

  /** The next entry of a lane. */
  function HeadOf(s: Streams, lane: Lane): Option<Payload> {
    EntryOf(s, Ref(lane, Cursor(s, lane)))
  }

  predicate Ready(s: Streams, lane: Lane) {
    HeadOf(s, lane).Some? && HeadOf(s, lane).value.Decoded?
  }

  /** A skip counts up; visiting a lane other than the one-time codes' without a skip starts the count again. */
  lemma SkipCounterMoves(s: Streams, ratio: int, lane: Lane)
    ensures var (t, o) := Visit(s, ratio, lane);
      && (o.Skipped? <==> lane == Marketing && s.skips < ratio)
      && t.skips == if o.Skipped? then s.skips + 1 else if lane == Otp then s.skips else 0
  {
  }

  /** What the visit of a known lane comes to when the counter does not skip it. */
  lemma VisitTakes(s: Streams, ratio: int, lane: Lane)
    requires !lane.Unknown? && !(lane == Marketing && s.skips < ratio)
    ensures var (t, o) := Visit(s, ratio, lane);
      && (if Ready(s, lane) then o == Delivered(Ref(lane, Cursor(s, lane)), HeadOf(s, lane).value.msg)
          else PassesOver(o))
      && forall l :: l != lane ==> HeadOf(t, l) == HeadOf(s, l) && Cursor(t, l) == Cursor(s, l)
  {
    VisitFrame(s, ratio, lane);
  }

  /** The consumer's pass returns the next one-time code if there is one, else the next transactional message;
      a marketing message comes only if neither is there and no skips are asked for. */
  lemma ConsumerGets(s: Streams, ratio: int, k: nat, t: Streams, r: DequeueResult)
    requires IsDequeue(s, ratio, [Otp, Transactional, Marketing], k, t, r)
    ensures r == if Ready(s, Otp) then Got(Otp, HeadOf(s, Otp).value.msg, Ref(Otp, Cursor(s, Otp)))
                 else if Ready(s, Transactional) then
                   Got(Transactional, HeadOf(s, Transactional).value.msg, Ref(Transactional, Cursor(s, Transactional)))
                 else if ratio <= 0 && Ready(s, Marketing) then
                   Got(Marketing, HeadOf(s, Marketing).value.msg, Ref(Marketing, Cursor(s, Marketing)))
                 else Empty
  {
    hide Visit, HeadOf, Ready, Cursor;
    var lanes := [Otp, Transactional, Marketing];
    var s1 := Visit(s, ratio, Otp).0;
    var s2 := Visit(s1, ratio, Transactional).0;
    VisitTakes(s, ratio, Otp);
    VisitTakes(s1, ratio, Transactional);
    SkipCounterMoves(s1, ratio, Transactional);
    SkipCounterMoves(s2, ratio, Marketing);
    if ratio <= 0 {
      VisitTakes(s2, ratio, Marketing);
    }
    FirstThree(s, ratio, lanes);
    SameReady(s, s1, Transactional);
    SameReady(s, s1, Marketing);
    SameReady(s1, s2, Marketing);
  }

  lemma SameReady(s: Streams, t: Streams, lane: Lane)
    ensures HeadOf(s, lane) == HeadOf(t, lane) ==> (Ready(s, lane) <==> Ready(t, lane))
  {
  }

  lemma FirstThree(s: Streams, ratio: int, lanes: seq<Lane>)
    requires |lanes| == 3
    ensures var s1 := Visit(s, ratio, lanes[0]).0; var s2 := Visit(s1, ratio, lanes[1]).0;
      && OutcomeAt(s, ratio, lanes, 0) == Visit(s, ratio, lanes[0]).1
      && OutcomeAt(s, ratio, lanes, 1) == Visit(s1, ratio, lanes[1]).1
      && OutcomeAt(s, ratio, lanes, 2) == Visit(s2, ratio, lanes[2]).1
  {
    hide Visit;
    assert After(s, ratio, lanes, 0) == s;
    assert After(s, ratio, lanes, 1) == Visit(s, ratio, lanes[0]).0;
    assert After(s, ratio, lanes, 2) == Visit(After(s, ratio, lanes, 1), ratio, lanes[1]).0;
  }

  lemma AbsentLane(ls: seq<Lane>, lane: Lane)
    requires lane !in ls
    ensures Occurrences(ls, lane) == 0
  {
  }

  /** A visit from the outside: the counter's test, then the read, then the payload. */
  lemma VisitIs(s: Streams, ratio: int, lane: Lane)
    ensures var s1 := Gate(s, ratio, lane).0;
      Visit(s, ratio, lane) ==
        if lane == Marketing && s.skips < ratio then (s.(skips := s.skips + 1), Skipped)
        else if lane.Unknown? then (s1, ReadError)
        else
          var (s2, got) := XReadGroup(s1, lane);
          if got.None? then (s2, NoEntry)
          else if Log(s2, lane)[got.value.pos].Undecodable? then (XAck(s2, got.value), Discarded(got.value))
          else (s2, Delivered(got.value, Log(s2, lane)[got.value.pos].msg))
  {
  }

  lemma NothingVisited(s: Streams, ratio: int, lanes: seq<Lane>)
    ensures Reaches(s, ratio, lanes, 0) && After(s, ratio, lanes, 0) == s
  {
  }

  lemma PassedOver(s: Streams, ratio: int, lanes: seq<Lane>, i: nat)
    requires i < |lanes| && Reaches(s, ratio, lanes, i)
    requires PassesOver(Visit(After(s, ratio, lanes, i), ratio, lanes[i]).1)
    ensures Reaches(s, ratio, lanes, i + 1)
    ensures After(s, ratio, lanes, i + 1) == Visit(After(s, ratio, lanes, i), ratio, lanes[i]).0
  {
    hide Visit;
  }

  lemma StoppedAt(s: Streams, ratio: int, lanes: seq<Lane>, i: nat, r: DequeueResult)
    requires i < |lanes| && Reaches(s, ratio, lanes, i)
    requires match Visit(After(s, ratio, lanes, i), ratio, lanes[i]).1
      case Delivered(ref, msg) => r == Got(lanes[i], msg, ref)
      case ReadError => r == Failed(lanes[i])
      case _ => false
    ensures IsDequeue(s, ratio, lanes, i, Visit(After(s, ratio, lanes, i), ratio, lanes[i]).0, r)
  {
    hide Visit;
  }

  lemma NothingFound(s: Streams, ratio: int, lanes: seq<Lane>)
    requires Reaches(s, ratio, lanes, |lanes|)
    ensures IsDequeue(s, ratio, lanes, |lanes|, After(s, ratio, lanes, |lanes|), Empty)
  {
    hide Visit;
  }

  /** The Go object: its fields are reassigned by every call. */
  class Queue {
    var log: map<Lane, seq<Payload>>
    var cursor: map<Lane, nat>
    var pending: set<Ref>
    var acked: set<Ref>
    var dead: seq<DeadRecord>
    var antiStarvationCnt: int
    const antiStarvationRatio: int

    ghost function View(): Streams
      reads this
    {
      Streams(log, cursor, pending, acked, dead, antiStarvationCnt)
    }

    constructor (ratio: int)
      ensures View() == EMPTY_STREAMS && antiStarvationRatio == ratio
    {
      log, cursor, pending, acked, dead := map[], map[], {}, {}, [];
      antiStarvationCnt := 0;
      antiStarvationRatio := ratio;
    }

    /** Appends to a known lane; an unknown lane is an error that changes nothing. */
    method Enqueue(lane: Lane, msg: QueueMessage) returns (id: Option<Ref>)
      modifies this
      ensures lane.Unknown? ==> id == None && View() == old(View())
      ensures !lane.Unknown? ==>
        id == Some(Ref(lane, |Log(old(View()), lane)|)) && View() == XAdd(old(View()), lane, Decoded(msg))
      ensures !lane.Unknown? ==>
        && lane in log && log[lane] == (if lane in old(log) then old(log)[lane] else []) + [Decoded(msg)]
        && log - {lane} == old(log) - {lane}
    {
      if lane.Unknown? {
        return None;
      }
      var entries := if lane in log then log[lane] else [];
      log := log[lane := entries + [Decoded(msg)]];
      id := Some(Ref(lane, |entries|));
    }

    method ReadGroup(lane: Lane) returns (got: Option<Ref>)
      modifies this`cursor, this`pending
      ensures (View(), got) == XReadGroup(old(View()), lane)
    {
      var c := if lane in cursor then cursor[lane] else 0;
      var entries := if lane in log then log[lane] else [];
      if c < |entries| {
        cursor := cursor[lane := c + 1];
        pending := pending + {Ref(lane, c)};
        got := Some(Ref(lane, c));
      } else {
        got := None;
      }
    }

    method Acknowledge(ref: Ref)
      modifies this`pending, this`acked
      ensures View() == XAck(old(View()), ref)
    {
      if ref in pending {
        pending := pending - {ref};
        acked := acked + {ref};
      }
    }

    method DeadLetter(lane: Lane, msg: QueueMessage)
      modifies this`dead
      ensures View() == old(View()).(dead := old(View()).dead + [DeadRecord(msg, lane)])
    {
      dead := dead + [DeadRecord(msg, lane)];
    }

    method Dequeue(lanes: seq<Lane>) returns (r: DequeueResult)
      modifies this
      ensures exists k :: IsDequeue(old(View()), antiStarvationRatio, lanes, k, View(), r)
    {
      hide Visit, After, Reaches, IsDequeue;
      ghost var s := View();
      var i := 0;
      NothingVisited(s, antiStarvationRatio, lanes);
      while i < |lanes|
        invariant 0 <= i <= |lanes|
        invariant Reaches(s, antiStarvationRatio, lanes, i)
        invariant View() == After(s, antiStarvationRatio, lanes, i)
      {
        var lane := lanes[i];
        ghost var here := View();
        VisitIs(here, antiStarvationRatio, lane);
        if lane == Marketing && antiStarvationCnt < antiStarvationRatio {
          antiStarvationCnt := antiStarvationCnt + 1;
          assert Visit(here, antiStarvationRatio, lane) == (View(), Skipped);
          PassedOver(s, antiStarvationRatio, lanes, i);
          i := i + 1;
          continue;
        }
        if lane != Otp {
          antiStarvationCnt := 0;
        }
        if lane.Unknown? {
          assert Visit(here, antiStarvationRatio, lane) == (View(), ReadError);
          r := Failed(lane);
          StoppedAt(s, antiStarvationRatio, lanes, i, r);
          return;
        }
        var got := ReadGroup(lane);
        if got.Some? {
          var payload := log[lane][got.value.pos];
          if payload.Undecodable? {
            Acknowledge(got.value);
            assert Visit(here, antiStarvationRatio, lane) == (View(), Discarded(got.value));
          } else {
            r := Got(lane, payload.msg, got.value);
            assert Visit(here, antiStarvationRatio, lane) == (View(), Delivered(got.value, payload.msg));
            StoppedAt(s, antiStarvationRatio, lanes, i, r);
            return;
          }
        }
        PassedOver(s, antiStarvationRatio, lanes, i);
        i := i + 1;
      }
      r := Empty;
      NothingFound(s, antiStarvationRatio, lanes);
    }
  }
}
