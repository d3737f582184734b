/** Any number of producers and workers interleaving on one set of streams. Every server call, every test,
    reset and increment of the skip counter, and the start and end of every handler run is one atomic
    step; the increment, which takes no lock, may itself fall apart into a load and a store. */
module LaneProtocol {
  import opened Common
  import opened Lanes

  /** What a handler run reports: success or error, and how many commands it published. */
  datatype Verdict = Verdict(ok: bool, publishes: nat)

  /** Where a worker stands in its endless loop. */
  datatype Worker =
    | Idle
    | AtLane(i: nat)
    | Skipping(i: nat)
    | Loaded(i: nat, v: int)
    | Resetting(i: nat)
    | Reading(i: nat)
    | Discarding(i: nat, ref: Ref)
    | Holding(ref: Ref, msg: QueueMessage)
    | Handling(ref: Ref, msg: QueueMessage)
    | Acking(ref: Ref)
    | Burying(ref: Ref, msg: QueueMessage)

  datatype Move =
    | Begin | PassGate | Count | Load | Store | Reset | Read(ok: bool) | Discard(ok: bool)
    | Start | Finish(verdict: Verdict) | Ack(ok: bool) | Bury(ok: bool) | Crash

  datatype Action = Append(lane: Lane, payload: Payload) | Act(w: nat, move: Move)

  /** `racy` lets increments of the skip counter fall apart. */
  datatype Config = Config(lanes: seq<Lane>, ratio: int, maxAttempts: int, racy: bool)

  datatype Result = Result(ref: Ref, verdict: Verdict)
  datatype Burial = Burial(ref: Ref, msg: QueueMessage)

  /** The streams, the workers, and the history of what happened. */
  datatype State = State(
    streams: Streams,
    workers: seq<Worker>,
    delivered: seq<Ref>,
    started: seq<Ref>,
    results: seq<Result>,
    burials: seq<Burial>,
    gates: seq<bool>)

  function Init(n: nat): State {
    State(EMPTY_STREAMS, seq(n, _ => Idle), [], [], [], [], [])
  }

  function Become(s: State, w: nat, worker: Worker): State
    requires w < |s.workers|
  {
    s.(workers := s.workers[w := worker])
  }

  function DoGate(c: Config, s: State, w: nat, i: nat): State
    requires w < |s.workers|
  {
    if i >= |c.lanes| then Become(s, w, Idle)
    else
      var skip := c.lanes[i] == Marketing && s.streams.skips < c.ratio;
      var gates := if c.lanes[i] == Marketing then s.gates + [!skip] else s.gates;
      var next := if skip then Skipping(i) else if c.lanes[i] != Otp then Resetting(i) else Reading(i);
      Become(s.(gates := gates), w, next)
  }

  /** The skip counter is set, and the worker moves on. */
  function SetSkips(s: State, w: nat, skips: int, worker: Worker): State
    requires w < |s.workers|
  {
    Become(s.(streams := s.streams.(skips := skips)), w, worker)
  }

  function DoRead(c: Config, s: State, w: nat, i: nat, ok: bool): State
    requires w < |s.workers|
  {
    if !ok || i >= |c.lanes| || c.lanes[i].Unknown? then Become(s, w, Idle)
    else
      var (t, got) := XReadGroup(s.streams, c.lanes[i]);
      match got
      case None => Become(s, w, AtLane(i + 1))
      case Some(ref) =>
        var s1 := s.(streams := t, delivered := s.delivered + [ref]);
        match Log(t, ref.lane)[ref.pos]
        case Undecodable => Become(s1, w, Discarding(i, ref))
        case Decoded(msg) => Become(s1, w, Holding(ref, msg))
  }

  function DoFinish(c: Config, s: State, w: nat, ref: Ref, msg: QueueMessage, v: Verdict): State
    requires w < |s.workers|
  {
    var tried := msg.(attempts := msg.attempts + 1);
    Become(s.(results := s.results + [Result(ref, v)]), w,
           if v.ok then Acking(ref) else if tried.attempts >= c.maxAttempts then Burying(ref, tried) else Idle)
  }

  function DoAck(s: State, w: nat, ref: Ref, ok: bool, next: Worker): State
    requires w < |s.workers|
  {
    Become(if ok then s.(streams := XAck(s.streams, ref)) else s, w, next)
  }

  function DoBury(s: State, w: nat, ref: Ref, msg: QueueMessage, ok: bool): State
    requires w < |s.workers|
  {
    Become(
      if ok then s.(streams := s.streams.(dead := s.streams.dead + [DeadRecord(msg, ref.lane)]),
                    burials := s.burials + [Burial(ref, msg)])
      else s, w, Idle)
  }

  function WorkerStep(c: Config, s: State, w: nat, m: Move): State
    requires w < |s.workers|
  {
    match (s.workers[w], m)
    case (Skipping(i), Count) => if c.racy then s else SetSkips(s, w, s.streams.skips + 1, AtLane(i + 1))
    case (Skipping(i), Load) => if c.racy then Become(s, w, Loaded(i, s.streams.skips)) else s
    case (Loaded(i, v), Store) => SetSkips(s, w, v + 1, AtLane(i + 1))
    case (Resetting(i), Reset) => SetSkips(s, w, 0, Reading(i))
    case (Skipping(_), _) => s
    case (Loaded(_, _), _) => s
    case (Resetting(_), _) => s
    case (_, Crash) => Become(s, w, Idle)
    case (Idle, Begin) => Become(s, w, AtLane(0))
    case (AtLane(i), PassGate) => DoGate(c, s, w, i)
    case (Reading(i), Read(ok)) => DoRead(c, s, w, i, ok)
    case (Discarding(i, ref), Discard(ok)) => DoAck(s, w, ref, ok, AtLane(i + 1))
    case (Holding(ref, msg), Start) => Become(s.(started := s.started + [ref]), w, Handling(ref, msg))
    case (Handling(ref, msg), Finish(v)) => DoFinish(c, s, w, ref, msg, v)
    case (Acking(ref), Ack(ok)) => DoAck(s, w, ref, ok, Idle)
    case (Burying(ref, msg), Bury(ok)) => DoBury(s, w, ref, msg, ok)
    case _ => s
  }

  /** One atomic step; an action that is not possible in `s` changes nothing. A worker does not crash
      between a test of the skip counter and what the test decides. */
  function Step(c: Config, s: State, a: Action): State {
    match a
    case Append(lane, p) => if lane.Unknown? then s else s.(streams := XAdd(s.streams, lane, p))
    case Act(w, m) => if w < |s.workers| then WorkerStep(c, s, w, m) else s
  }

  function Run(c: Config, s: State, acts: seq<Action>): State {
    if acts == [] then s else Step(c, Run(c, s, acts[..|acts| - 1]), acts[|acts| - 1])
  }

  /** What a failed server command comes to: a failed read ends the pass; a failed acknowledgement or
      dead-lettering is passed over and leaves its entry pending. */
  lemma FailedCommands(c: Config, s: State, w: nat, m: Move)
    requires w < |s.workers| && m in {Read(false), Discard(false), Ack(false), Bury(false)}
    ensures var t := Step(c, s, Act(w, m));
      && t.(workers := s.workers) == s
      && (forall v :: 0 <= v < |s.workers| && v != w ==> t.workers[v] == s.workers[v])
      && (s.workers[w].Reading? && m == Read(false) ==> t.workers[w] == Idle)
      && (s.workers[w].Discarding? && m == Discard(false) ==> t.workers[w] == AtLane(s.workers[w].i + 1))
      && (s.workers[w].Acking? && m == Ack(false) ==> t.workers[w] == Idle)
      && (s.workers[w].Burying? && m == Bury(false) ==> t.workers[w] == Idle)
  {
    hide XReadGroup, XAck;
  }

  // ---- the invariant of every reachable state ----

  ghost predicate Places(t: Streams) {
    && t.pending !! t.acked
    && (forall l :: Cursor(t, l) <= |Log(t, l)|)
    && (forall ref :: ref in t.pending || ref in t.acked <==> ref.pos < Cursor(t, ref.lane))
  }

  ghost predicate Reported(s: State, ref: Ref, ok: bool) {
    exists i :: 0 <= i < |s.results| && s.results[i].ref == ref && s.results[i].verdict.ok == ok
  }

  ghost predicate Buried(s: State, ref: Ref) {
    exists i :: 0 <= i < |s.burials| && s.burials[i].ref == ref
  }

  function Held(w: Worker): Option<Ref> {
    match w
    case Idle => None
    case AtLane(_) => None
    case Skipping(_) => None
    case Loaded(_, _) => None
    case Resetting(_) => None
    case Reading(_) => None
    case Discarding(_, ref) => Some(ref)
    case Holding(ref, _) => Some(ref)
    case Handling(ref, _) => Some(ref)
    case Acking(ref) => Some(ref)
    case Burying(ref, _) => Some(ref)
  }

  /** The message a failed run is buried with: one attempt more than the stored payload says. */
  ghost predicate BuriedAs(c: Config, s: State, ref: Ref, msg: QueueMessage) {
    && msg.attempts >= c.maxAttempts
    && EntryOf(s.streams, ref) == Some(Decoded(msg.(attempts := msg.attempts - 1)))
  }

  ghost predicate WorkerOk(c: Config, s: State, w: Worker) {
    && (Held(w).Some? ==> Held(w).value in s.streams.pending)
    && match w
       case Discarding(_, ref) => EntryOf(s.streams, ref) == Some(Undecodable)
       case Holding(ref, msg) => EntryOf(s.streams, ref) == Some(Decoded(msg)) && ref !in s.started
       case Handling(ref, msg) =>
         && EntryOf(s.streams, ref) == Some(Decoded(msg)) && ref in s.started
         && !Reported(s, ref, true) && !Reported(s, ref, false)
       case Acking(ref) => Reported(s, ref, true)
       case Burying(ref, msg) => Reported(s, ref, false) && !Buried(s, ref) && BuriedAs(c, s, ref, msg)
       case _ => true
  }

  ghost predicate Workers(c: Config, s: State) {
    && (forall w :: 0 <= w < |s.workers| ==> WorkerOk(c, s, s.workers[w]))
    && (forall v, w :: 0 <= v < w < |s.workers| && Held(s.workers[v]).Some? ==>
          Held(s.workers[v]) != Held(s.workers[w]))
  }

  ghost predicate Histories(c: Config, s: State) {
    && Distinct(s.started)
    && (forall i, j :: 0 <= i < j < |s.results| ==> s.results[i].ref != s.results[j].ref)
    && (forall i, j :: 0 <= i < j < |s.burials| ==> s.burials[i].ref != s.burials[j].ref)
    && (forall ref :: ref in s.started ==>
          ref.pos < Cursor(s.streams, ref.lane) && EntryOf(s.streams, ref) != Some(Undecodable))
    && (forall i :: 0 <= i < |s.results| ==> s.results[i].ref in s.started)
    && (forall i :: 0 <= i < |s.burials| ==>
          Reported(s, s.burials[i].ref, false) && BuriedAs(c, s, s.burials[i].ref, s.burials[i].msg))
    && (forall ref :: ref in s.streams.acked ==>
          EntryOf(s.streams, ref) == Some(Undecodable) || Reported(s, ref, true))
  }

  function CountUp(n: nat): seq<nat> {
    if n == 0 then [] else CountUp(n - 1) + [n - 1]
  }

  /** The positions handed out of one lane, in the order they were handed out. */
  function PositionsOf(refs: seq<Ref>, lane: Lane): seq<nat> {
    if refs == [] then []
    else
      var last := refs[|refs| - 1];
      PositionsOf(refs[..|refs| - 1], lane) + if last.lane == lane then [last.pos] else []
  }

  ghost predicate InOrder(s: State) {
    forall l :: PositionsOf(s.delivered, l) == CountUp(Cursor(s.streams, l))
  }

  ghost predicate Inv(c: Config, s: State) {
    Places(s.streams) && Workers(c, s) && Histories(c, s) && InOrder(s)
  }

  lemma EntriesStay(s: Streams, lane: Lane, p: Payload)
    ensures forall ref :: EntryOf(s, ref).Some? ==> EntryOf(XAdd(s, lane, p), ref) == EntryOf(s, ref)
    ensures forall l :: Cursor(XAdd(s, lane, p), l) == Cursor(s, l)
    ensures forall l :: |Log(s, l)| <= |Log(XAdd(s, lane, p), l)|
  {
  }

  /** Reports and entries known in `s` are still known in `t`. */
  ghost predicate Grows(s: State, t: State) {
    && s.results <= t.results && s.burials <= t.burials && s.started <= t.started
    && (forall ref :: EntryOf(s.streams, ref).Some? ==> EntryOf(t.streams, ref) == EntryOf(s.streams, ref))
  }

  /** What `t` adds to the histories is about no entry that `worker` holds, which stays pending. */
  ghost predicate Undisturbed(s: State, t: State, worker: Worker) {
    Held(worker).Some? ==>
      var ref := Held(worker).value;
      && (ref in s.streams.pending ==> ref in t.streams.pending)
      && (ref in t.started ==> ref in s.started)
      && (forall i :: |s.results| <= i < |t.results| ==> t.results[i].ref != ref)
      && (forall i :: |s.burials| <= i < |t.burials| ==> t.burials[i].ref != ref)
  }

  lemma GrowsKeepsReports(s: State, t: State, ref: Ref, ok: bool)
    requires Grows(s, t) && Reported(s, ref, ok)
    ensures Reported(t, ref, ok)
  {
    var i :| 0 <= i < |s.results| && s.results[i].ref == ref && s.results[i].verdict.ok == ok;
    assert t.results[i] == s.results[i];
  }

  lemma UndisturbedWorker(c: Config, s: State, t: State, worker: Worker)
    requires Grows(s, t) && WorkerOk(c, s, worker) && Undisturbed(s, t, worker)
    ensures WorkerOk(c, t, worker)
  {
    if worker.Acking? {
      GrowsKeepsReports(s, t, worker.ref, true);
    } else if worker.Burying? {
      GrowsKeepsReports(s, t, worker.ref, false);
    }
  }

  /** What every growing step carries over from the histories. */
  lemma CarryHistories(c: Config, s: State, t: State)
    requires Inv(c, s) && Grows(s, t)
    ensures forall i :: 0 <= i < |s.burials| ==>
      Reported(t, s.burials[i].ref, false) && BuriedAs(c, t, s.burials[i].ref, s.burials[i].msg)
    ensures forall ref :: ref in s.streams.acked ==>
      EntryOf(t.streams, ref) == Some(Undecodable) || Reported(t, ref, true)
  {
    forall i | 0 <= i < |s.burials|
      ensures Reported(t, s.burials[i].ref, false) && BuriedAs(c, t, s.burials[i].ref, s.burials[i].msg)
    {
      assert BuriedAs(c, s, s.burials[i].ref, s.burials[i].msg);
      GrowsKeepsReports(s, t, s.burials[i].ref, false);
    }
    forall ref | ref in s.streams.acked
      ensures EntryOf(t.streams, ref) == Some(Undecodable) || Reported(t, ref, true)
    {
      if EntryOf(s.streams, ref) != Some(Undecodable) {
        GrowsKeepsReports(s, t, ref, true);
      }
    }
  }

  /** The histories' part of the invariant when nothing new is started, reported or buried, and only
      an entry that may be acknowledged is. */
  lemma HistoriesStay(c: Config, s: State, t: State)
    requires Inv(c, s) && Grows(s, t)
    requires t.started == s.started && t.results == s.results && t.burials == s.burials
    requires forall l :: Cursor(s.streams, l) <= Cursor(t.streams, l)
    requires forall ref :: ref in t.streams.acked && ref !in s.streams.acked ==>
      EntryOf(t.streams, ref) == Some(Undecodable) || Reported(s, ref, true)
    ensures Histories(c, t)
  {
    CarryHistories(c, s, t);
    forall ref | ref in t.streams.acked
      ensures EntryOf(t.streams, ref) == Some(Undecodable) || Reported(t, ref, true)
    {
      if Reported(s, ref, true) {
        GrowsKeepsReports(s, t, ref, true);
      }
    }
    assert forall ref :: ref in t.started ==> EntryOf(s.streams, ref).Some?;
  }

  /** The workers' part of the invariant when only worker `w` moves. */
  lemma OthersUndisturbed(c: Config, s: State, t: State, w: nat)
    requires Workers(c, s) && Grows(s, t) && w < |s.workers|
    requires |t.workers| == |s.workers| && t.workers == s.workers[w := t.workers[w]]
    requires WorkerOk(c, t, t.workers[w])
    requires forall v :: 0 <= v < |s.workers| && v != w ==> Undisturbed(s, t, s.workers[v])
    requires forall v :: 0 <= v < |s.workers| && v != w && Held(s.workers[v]).Some? ==>
      Held(s.workers[v]) != Held(t.workers[w])
    ensures Workers(c, t)
  {
    forall v | 0 <= v < |t.workers| ensures WorkerOk(c, t, t.workers[v]) {
      if v != w {
        assert WorkerOk(c, s, s.workers[v]);
        UndisturbedWorker(c, s, t, s.workers[v]);
      }
    }
  }

  ghost predicate SameDeliveries(s: Streams, t: Streams) {
    forall l :: Log(t, l) == Log(s, l) && Cursor(t, l) == Cursor(s, l)
  }

  // ---- each atomic step keeps the invariant ----

  lemma AppendKeepsInv(c: Config, s: State, lane: Lane, p: Payload)
    requires Inv(c, s)
    ensures Inv(c, Step(c, s, Append(lane, p)))
  {
    EntriesStay(s.streams, lane, p);
    var t := Step(c, s, Append(lane, p));
    HistoriesStay(c, s, t);
    forall w | 0 <= w < |t.workers| ensures WorkerOk(c, t, t.workers[w]) {
      UndisturbedWorker(c, s, t, s.workers[w]);
    }
  }

  /** A worker moves on and gives up or keeps what it holds; nothing else changes. */
  lemma BecomeKeepsInv(c: Config, s: State, w: nat, worker: Worker)
    requires Inv(c, s) && w < |s.workers|
    requires WorkerOk(c, s, worker) && (Held(worker) == None || Held(worker) == Held(s.workers[w]))
    ensures Inv(c, Become(s, w, worker))
  {
    var t := Become(s, w, worker);
    HistoriesStay(c, s, t);
    UndisturbedWorker(c, s, t, worker);
    OthersUndisturbed(c, s, t, w);
  }

  /** The skip counter and the record of its tests carry no delivery state. */
  lemma CounterKeepsInv(c: Config, s: State, skips: int, gates: seq<bool>)
    requires Inv(c, s)
    ensures Inv(c, s.(streams := s.streams.(skips := skips), gates := gates))
  {
    var t := s.(streams := s.streams.(skips := skips), gates := gates);
    assert SameDeliveries(s.streams, t.streams);
    HistoriesStay(c, s, t);
    forall v | 0 <= v < |s.workers| ensures WorkerOk(c, t, t.workers[v]) {
      UndisturbedWorker(c, s, t, s.workers[v]);
    }
  }

  lemma GateKeepsInv(c: Config, s: State, w: nat, i: nat)
    requires Inv(c, s) && w < |s.workers| && s.workers[w] == AtLane(i)
    ensures Inv(c, DoGate(c, s, w, i))
  {
    if i >= |c.lanes| {
      BecomeKeepsInv(c, s, w, Idle);
    } else {
      var t := DoGate(c, s, w, i);
      CounterKeepsInv(c, s, s.streams.skips, t.gates);
      BecomeKeepsInv(c, s.(gates := t.gates), w, t.workers[w]);
    }
  }

  lemma SetSkipsKeepsInv(c: Config, s: State, w: nat, skips: int, worker: Worker)
    requires Inv(c, s) && w < |s.workers| && Held(worker) == None && WorkerOk(c, s, worker)
    ensures Inv(c, SetSkips(s, w, skips, worker))
  {
    hide Inv;
    CounterKeepsInv(c, s, skips, s.gates);
    var s1 := s.(streams := s.streams.(skips := skips), gates := s.gates);
    assert WorkerOk(c, s1, worker);
    BecomeKeepsInv(c, s1, w, worker);
  }

  lemma ReadGroupPlaces(u: Streams, lane: Lane)
    requires Places(u) && XReadGroup(u, lane).1.Some?
    ensures var (t, got) := XReadGroup(u, lane);
      && Places(t) && got.value.lane == lane && got.value.pos == Cursor(u, lane)
      && got.value !in u.pending && got.value !in u.acked
      && EntryOf(t, got.value).Some? && t.acked == u.acked && t.pending == u.pending + {got.value}
      && (forall l :: Log(t, l) == Log(u, l))
      && (forall l :: Cursor(t, l) == Cursor(u, l) + if l == lane then 1 else 0)
  {
    var t := XReadGroup(u, lane).0;
    forall l ensures Cursor(t, l) <= |Log(t, l)| {
      assert Cursor(u, l) <= |Log(u, l)|;
    }
  }

  lemma {:induction false} ReadKeepsInv(c: Config, s: State, w: nat, i: nat, ok: bool)
    requires Inv(c, s) && w < |s.workers| && s.workers[w] == Reading(i)
    ensures Inv(c, DoRead(c, s, w, i, ok))
  {
    if !ok || i >= |c.lanes| || c.lanes[i].Unknown? {
      BecomeKeepsInv(c, s, w, Idle);
    } else if XReadGroup(s.streams, c.lanes[i]).1 == None {
      BecomeKeepsInv(c, s, w, AtLane(i + 1));
    } else {
      ReadGroupPlaces(s.streams, c.lanes[i]);
      var (u, got) := XReadGroup(s.streams, c.lanes[i]);
      var ref := got.value;
      TakeKeepsInv(c, s, w, u, ref,
                   match Log(u, ref.lane)[ref.pos]
                   case Undecodable => Discarding(i, ref)
                   case Decoded(msg) => Holding(ref, msg));
    }
  }

  /** Worker `w` takes a fresh entry. */
  lemma {:induction false} TakeKeepsInv(c: Config, s: State, w: nat, u: Streams, ref: Ref, worker: Worker)
    requires Inv(c, s) && w < |s.workers| && Held(worker) == Some(ref)
    requires Places(u) && ref !in s.streams.pending && ref !in s.streams.acked && ref.pos == Cursor(s.streams, ref.lane)
    requires u.pending == s.streams.pending + {ref} && u.acked == s.streams.acked
    requires forall l :: Log(u, l) == Log(s.streams, l)
    requires forall l :: Cursor(u, l) == Cursor(s.streams, l) + if l == ref.lane then 1 else 0
    requires match worker
             case Discarding(_, _) => EntryOf(u, ref) == Some(Undecodable)
             case Holding(_, msg) => EntryOf(u, ref) == Some(Decoded(msg))
             case _ => false
    ensures Inv(c, Become(s.(streams := u, delivered := s.delivered + [ref]), w, worker))
  {
    var t := Become(s.(streams := u, delivered := s.delivered + [ref]), w, worker);
    assert Histories(c, t) by { HistoriesStay(c, s, t); }
    assert WorkerOk(c, t, worker);
    assert Workers(c, t) by {
      forall v | 0 <= v < |s.workers| && v != w && Held(s.workers[v]).Some?
        ensures Held(s.workers[v]) != Some(ref)
      {
        assert WorkerOk(c, s, s.workers[v]);
      }
      OthersUndisturbed(c, s, t, w);
    }
    assert InOrder(t) by { ReadInOrder(s, t, ref); }
  }

  lemma ReadInOrder(s: State, t: State, ref: Ref)
    requires InOrder(s) && ref.pos == Cursor(s.streams, ref.lane)
    requires t.delivered == s.delivered + [ref]
    requires forall l :: Cursor(t.streams, l) == Cursor(s.streams, l) + if l == ref.lane then 1 else 0
    ensures InOrder(t)
  {
    TakeOfAppend(s.delivered, ref);
  }

  /** Acknowledging the entry a worker holds, after which the worker no longer holds it. */
  lemma AckKeepsInv(c: Config, s: State, w: nat, ref: Ref, ok: bool, next: Worker)
    requires Inv(c, s) && w < |s.workers| && Held(s.workers[w]) == Some(ref) && Held(next) == None
    requires EntryOf(s.streams, ref) == Some(Undecodable) || Reported(s, ref, true)
    ensures Inv(c, DoAck(s, w, ref, ok, next))
  {
    if ok {
      var t := DoAck(s, w, ref, ok, next);
      assert SameDeliveries(s.streams, t.streams);
      assert Histories(c, t) by { HistoriesStay(c, s, t); }
      assert Workers(c, t) by { OthersUndisturbed(c, s, t, w); }
    } else {
      BecomeKeepsInv(c, s, w, next);
    }
  }

  lemma StartHistories(c: Config, s: State, t: State, ref: Ref)
    requires Inv(c, s) && ref !in s.started && ref in s.streams.pending && EntryOf(s.streams, ref) != Some(Undecodable)
    requires t == s.(started := s.started + [ref], workers := t.workers)
    ensures Histories(c, t) && forall i :: 0 <= i < |s.results| ==> s.results[i].ref != ref
  {
    hide Workers, InOrder, BuriedAs, Reported;
    CarryHistories(c, s, t);
    assert ref.pos < Cursor(s.streams, ref.lane) by { hide Histories; }
  }

  lemma StartKeepsInv(c: Config, s: State, w: nat, ref: Ref, msg: QueueMessage)
    requires Inv(c, s) && w < |s.workers| && s.workers[w] == Holding(ref, msg)
    ensures Inv(c, WorkerStep(c, s, w, Start))
  {
    hide Places, InOrder, BuriedAs;
    var t := WorkerStep(c, s, w, Start);
    assert WorkerOk(c, s, s.workers[w]);
    StartHistories(c, s, t, ref);
    assert Workers(c, t) by {
      hide Histories;
      OthersUndisturbed(c, s, t, w);
    }
    SameOrder(s, t);
  }

  lemma SameOrder(s: State, t: State)
    requires Places(s.streams) && InOrder(s) && SameDeliveries(s.streams, t.streams)
    requires t.delivered == s.delivered && t.streams.pending == s.streams.pending && t.streams.acked == s.streams.acked
    ensures Places(t.streams) && InOrder(t)
  {
  }

  lemma ResultIsReport(s: State, i: nat)
    requires i < |s.results|
    ensures Reported(s, s.results[i].ref, s.results[i].verdict.ok)
  {
  }

  lemma FinishHistories(c: Config, s: State, t: State, ref: Ref, v: Verdict)
    requires Inv(c, s) && ref in s.started && !Reported(s, ref, true) && !Reported(s, ref, false)
    requires t == s.(results := s.results + [Result(ref, v)], workers := t.workers)
    ensures Histories(c, t) && Reported(t, ref, v.ok) && !Buried(s, ref)
    ensures forall i :: 0 <= i < |s.results| ==> s.results[i].ref != ref
  {
    hide Workers, Places, InOrder, BuriedAs;
    forall i | 0 <= i < |s.results| ensures s.results[i].ref != ref {
      ResultIsReport(s, i);
    }
    assert t.results[|s.results|] == Result(ref, v);
    CarryHistories(c, s, t);
  }

  lemma FinishKeepsInv(c: Config, s: State, w: nat, ref: Ref, msg: QueueMessage, v: Verdict)
    requires Inv(c, s) && w < |s.workers| && s.workers[w] == Handling(ref, msg)
    ensures Inv(c, DoFinish(c, s, w, ref, msg, v))
  {
    hide Places, InOrder;
    var t := DoFinish(c, s, w, ref, msg, v);
    assert WorkerOk(c, s, s.workers[w]);
    FinishHistories(c, s, t, ref, v);
    SameOrder(s, t);
    assert Workers(c, t) by {
      hide Histories, Reported, Buried;
      assert WorkerOk(c, t, t.workers[w]) by { NotYetBuried(s, t, ref); }
      OthersUndisturbed(c, s, t, w);
    }
  }

  lemma NotYetBuried(s: State, t: State, ref: Ref)
    requires !Buried(s, ref) && t.burials == s.burials
    ensures !Buried(t, ref)
  {
  }

  lemma BuryHistories(c: Config, s: State, t: State, ref: Ref, msg: QueueMessage)
    requires Inv(c, s) && Reported(s, ref, false) && !Buried(s, ref) && BuriedAs(c, s, ref, msg)
    requires t == s.(streams := s.streams.(dead := t.streams.dead), burials := s.burials + [Burial(ref, msg)],
                     workers := t.workers)
    ensures Histories(c, t)
  {
    hide Workers, Places, InOrder;
    assert SameDeliveries(s.streams, t.streams);
    CarryHistories(c, s, t);
    GrowsKeepsReports(s, t, ref, false);
    assert BuriedAs(c, t, ref, msg);
    hide Reported, BuriedAs;
  }

  lemma BuryKeepsInv(c: Config, s: State, w: nat, ref: Ref, msg: QueueMessage, ok: bool)
    requires Inv(c, s) && w < |s.workers| && s.workers[w] == Burying(ref, msg)
    ensures Inv(c, DoBury(s, w, ref, msg, ok))
  {
    hide Places, InOrder, Histories, BuriedAs, Reported, Buried;
    assert WorkerOk(c, s, s.workers[w]);
    if ok {
      var t := DoBury(s, w, ref, msg, ok);
      BuryHistories(c, s, t, ref, msg);
      SameOrder(s, t);
      assert Workers(c, t) by { OthersUndisturbed(c, s, t, w); }
    } else {
      BecomeKeepsInv(c, s, w, Idle);
    }
  }

  // ---- every move from every place of the loop ----

  lemma FromIdle(c: Config, s: State, w: nat, m: Move)
    requires Inv(c, s) && w < |s.workers| && s.workers[w].Idle?
    ensures Inv(c, WorkerStep(c, s, w, m))
  {
    var worker := s.workers[w];
    if m.Crash? {
      BecomeKeepsInv(c, s, w, Idle);
    } else if m.Begin? {
      BecomeKeepsInv(c, s, w, AtLane(0));
    } else {
      assert WorkerStep(c, s, w, m) == s;
    }
  }

  lemma FromAtLane(c: Config, s: State, w: nat, m: Move)
    requires Inv(c, s) && w < |s.workers| && s.workers[w].AtLane?
    ensures Inv(c, WorkerStep(c, s, w, m))
  {
    var worker := s.workers[w];
    if m.Crash? {
      BecomeKeepsInv(c, s, w, Idle);
    } else if m.PassGate? {
      GateKeepsInv(c, s, w, worker.i);
    } else {
      assert WorkerStep(c, s, w, m) == s;
    }
  }

  /** Between a test of the counter and what it decides. */
  lemma FromCounting(c: Config, s: State, w: nat, m: Move)
    requires Inv(c, s) && w < |s.workers|
    requires s.workers[w].Skipping? || s.workers[w].Loaded? || s.workers[w].Resetting?
    ensures Inv(c, WorkerStep(c, s, w, m))
  {
    hide Inv, SetSkips, Become;
    var worker := s.workers[w];
    if worker.Skipping? && m.Count? && !c.racy {
      SetSkipsKeepsInv(c, s, w, s.streams.skips + 1, AtLane(worker.i + 1));
    } else if worker.Skipping? && m.Load? && c.racy {
      BecomeKeepsInv(c, s, w, Loaded(worker.i, s.streams.skips));
    } else if worker.Loaded? && m.Store? {
      SetSkipsKeepsInv(c, s, w, worker.v + 1, AtLane(worker.i + 1));
    } else if worker.Resetting? && m.Reset? {
      SetSkipsKeepsInv(c, s, w, 0, Reading(worker.i));
    } else {
      assert WorkerStep(c, s, w, m) == s;
    }
  }

  lemma FromReading(c: Config, s: State, w: nat, m: Move)
    requires Inv(c, s) && w < |s.workers| && s.workers[w].Reading?
    ensures Inv(c, WorkerStep(c, s, w, m))
  {
    var worker := s.workers[w];
    if m.Crash? {
      BecomeKeepsInv(c, s, w, Idle);
    } else if m.Read? {
      ReadKeepsInv(c, s, w, worker.i, m.ok);
    } else {
      assert WorkerStep(c, s, w, m) == s;
    }
  }

  lemma FromDiscarding(c: Config, s: State, w: nat, m: Move)
    requires Inv(c, s) && w < |s.workers| && s.workers[w].Discarding?
    ensures Inv(c, WorkerStep(c, s, w, m))
  {
    var worker := s.workers[w];
    if m.Crash? {
      BecomeKeepsInv(c, s, w, Idle);
    } else if m.Discard? {
      assert WorkerOk(c, s, worker);
      assert WorkerStep(c, s, w, m) == DoAck(s, w, worker.ref, m.ok, AtLane(worker.i + 1));
      AckKeepsInv(c, s, w, worker.ref, m.ok, AtLane(worker.i + 1));
    } else {
      assert WorkerStep(c, s, w, m) == s;
    }
  }

  lemma {:induction false} FromHolding(c: Config, s: State, w: nat, m: Move)
    requires Inv(c, s) && w < |s.workers| && s.workers[w].Holding?
    ensures Inv(c, WorkerStep(c, s, w, m))
  {
    var worker := s.workers[w];
    if m.Crash? {
      BecomeKeepsInv(c, s, w, Idle);
    } else if m.Start? {
      StartKeepsInv(c, s, w, worker.ref, worker.msg);
    } else {
      assert WorkerStep(c, s, w, m) == s;
    }
  }

  lemma FromHandling(c: Config, s: State, w: nat, m: Move)
    requires Inv(c, s) && w < |s.workers| && s.workers[w].Handling?
    ensures Inv(c, WorkerStep(c, s, w, m))
  {
    var worker := s.workers[w];
    if m.Crash? {
      BecomeKeepsInv(c, s, w, Idle);
    } else if m.Finish? {
      FinishKeepsInv(c, s, w, worker.ref, worker.msg, m.verdict);
    } else {
      assert WorkerStep(c, s, w, m) == s;
    }
  }

  lemma FromAcking(c: Config, s: State, w: nat, m: Move)
    requires Inv(c, s) && w < |s.workers| && s.workers[w].Acking?
    ensures Inv(c, WorkerStep(c, s, w, m))
  {
    var worker := s.workers[w];
    if m.Crash? {
      BecomeKeepsInv(c, s, w, Idle);
    } else if m.Ack? {
      assert WorkerOk(c, s, worker);
      AckKeepsInv(c, s, w, worker.ref, m.ok, Idle);
    } else {
      assert WorkerStep(c, s, w, m) == s;
    }
  }

  lemma FromBurying(c: Config, s: State, w: nat, m: Move)
    requires Inv(c, s) && w < |s.workers| && s.workers[w].Burying?
    ensures Inv(c, WorkerStep(c, s, w, m))
  {
    var worker := s.workers[w];
    if m.Crash? {
      BecomeKeepsInv(c, s, w, Idle);
    } else if m.Bury? {
      BuryKeepsInv(c, s, w, worker.ref, worker.msg, m.ok);
    } else {
      assert WorkerStep(c, s, w, m) == s;
    }
  }

  lemma StepKeepsInv(c: Config, s: State, a: Action)
    requires Inv(c, s)
    ensures Inv(c, Step(c, s, a))
  {
    match a
    case Append(lane, p) => AppendKeepsInv(c, s, lane, p);
    case Act(w, m) =>
      if w < |s.workers| {
        match s.workers[w]
        case Idle => FromIdle(c, s, w, m);
        case AtLane(_) => FromAtLane(c, s, w, m);
        case Skipping(_) => FromCounting(c, s, w, m);
        case Loaded(_, _) => FromCounting(c, s, w, m);
        case Resetting(_) => FromCounting(c, s, w, m);
        case Reading(_) => FromReading(c, s, w, m);
        case Discarding(_, _) => FromDiscarding(c, s, w, m);
        case Holding(_, _) => FromHolding(c, s, w, m);
        case Handling(_, _) => FromHandling(c, s, w, m);
        case Acking(_) => FromAcking(c, s, w, m);
        case Burying(_, _) => FromBurying(c, s, w, m);
      }
  }

  lemma {:induction false} RunKeepsInv(c: Config, s: State, acts: seq<Action>)
    requires Inv(c, s)
    ensures Inv(c, Run(c, s, acts))
  {
    if acts != [] {
      RunKeepsInv(c, s, acts[..|acts| - 1]);
      StepKeepsInv(c, Run(c, s, acts[..|acts| - 1]), acts[|acts| - 1]);
    }
  }

  // ---- what every interleaving guarantees ----

  /** Every appended entry is in exactly one of three places: undelivered, pending, acknowledged. */
  lemma EntryIsInOnePlace(c: Config, n: nat, acts: seq<Action>, ref: Ref)
    requires EntryOf(Run(c, Init(n), acts).streams, ref).Some?
    ensures var t := Run(c, Init(n), acts).streams;
      && (Undelivered(t, ref) || ref in t.pending || ref in t.acked)
      && !(Undelivered(t, ref) && (ref in t.pending || ref in t.acked))
      && !(ref in t.pending && ref in t.acked)
  {
    RunKeepsInv(c, Init(n), acts);
  }

  /** The handler starts at most once for each entry, whatever crashes, fails or interleaves, and each
      lane is handed out in append order without gaps. */
  lemma {:induction false} HandledOnceInOrder(c: Config, n: nat, acts: seq<Action>)
    ensures var s := Run(c, Init(n), acts);
      && Distinct(s.started)
      && (forall l :: PositionsOf(s.delivered, l) == CountUp(Cursor(s.streams, l)))
      && (forall i, j :: 0 <= i < j < |s.results| ==> s.results[i].ref != s.results[j].ref)
  {
    RunKeepsInv(c, Init(n), acts);
  }

  /** An entry is acknowledged only if its payload cannot be decoded or its one handler run succeeded. */
  lemma AckNeedsSuccess(c: Config, n: nat, acts: seq<Action>, ref: Ref)
    requires ref in Run(c, Init(n), acts).streams.acked
    ensures var s := Run(c, Init(n), acts);
      (EntryOf(s.streams, ref) == Some(Undecodable) && ref !in s.started) || Reported(s, ref, true)
  {
    RunKeepsInv(c, Init(n), acts);
  }

  function DeadOf(burials: seq<Burial>): seq<DeadRecord> {
    if burials == [] then []
    else
      var last := burials[|burials| - 1];
      DeadOf(burials[..|burials| - 1]) + [DeadRecord(last.msg, last.ref.lane)]
  }

  lemma {:induction false} DeadOfAt(burials: seq<Burial>)
    ensures |DeadOf(burials)| == |burials|
    ensures forall i :: 0 <= i < |burials| ==> DeadOf(burials)[i] == DeadRecord(burials[i].msg, burials[i].ref.lane)
  {
    if burials != [] {
      DeadOfAt(burials[..|burials| - 1]);
    }
  }

  /** The dead-letter stream holds one record for each burial, in order, and nothing else. */
  lemma DeadStreamIsBurials(c: Config, n: nat, acts: seq<Action>)
    ensures var s := Run(c, Init(n), acts);
      && |s.streams.dead| == |s.burials|
      && forall i :: 0 <= i < |s.burials| ==>
           s.streams.dead[i] == DeadRecord(s.burials[i].msg, s.burials[i].ref.lane)
  {
    RunBuries(c, n, acts);
    DeadOfAt(Run(c, Init(n), acts).burials);
  }

  lemma {:induction false} RunBuries(c: Config, n: nat, acts: seq<Action>)
    ensures Run(c, Init(n), acts).streams.dead == DeadOf(Run(c, Init(n), acts).burials)
  {
    if acts != [] {
      hide Step;
      RunBuries(c, n, acts[..|acts| - 1]);
      StepBuries(c, Run(c, Init(n), acts[..|acts| - 1]), acts[|acts| - 1]);
    }
  }

  lemma StepBuries(c: Config, s: State, a: Action)
    requires s.streams.dead == DeadOf(s.burials)
    ensures Step(c, s, a).streams.dead == DeadOf(Step(c, s, a).burials)
  {
    if a.Act? && a.w < |s.workers| {
      hide WorkerStep;
      if a.move.Bury? && s.workers[a.w].Burying? {
        BuryBuries(c, s, a.w, a.move);
      } else {
        OnlyBuryBuries(c, s, a.w, a.move);
      }
    }
  }

  lemma BuryBuries(c: Config, s: State, w: nat, m: Move)
    requires w < |s.workers| && m.Bury? && s.workers[w].Burying? && s.streams.dead == DeadOf(s.burials)
    ensures WorkerStep(c, s, w, m).streams.dead == DeadOf(WorkerStep(c, s, w, m).burials)
  {
    TakeOfAppend(s.burials, Burial(s.workers[w].ref, s.workers[w].msg));
  }

  lemma OnlyBuryBuries(c: Config, s: State, w: nat, m: Move)
    requires w < |s.workers| && !(m.Bury? && s.workers[w].Burying?)
    ensures WorkerStep(c, s, w, m).streams.dead == s.streams.dead && WorkerStep(c, s, w, m).burials == s.burials
  {
    hide DoBury, Log, Cursor;
  }

  /** A dead-lettered entry failed; its record carries the stored message with one attempt more, which is
      at or past the maximum; and it is still pending and unacknowledged in every later state. */
  lemma DeadLetterIsNeverAcked(c: Config, n: nat, acts: seq<Action>, later: seq<Action>, b: Burial)
    requires b in Run(c, Init(n), acts).burials
    ensures var s, t := Run(c, Init(n), acts), Run(c, Run(c, Init(n), acts), later);
      && Reported(s, b.ref, false)
      && (exists msg :: EntryOf(s.streams, b.ref) == Some(Decoded(msg))
            && b.msg == msg.(attempts := msg.attempts + 1) && msg.attempts + 1 >= c.maxAttempts)
      && b.ref !in t.streams.acked && b.ref in t.streams.pending
  {
    hide Run;
    RunKeepsInv(c, Init(n), acts);
    var s := Run(c, Init(n), acts);
    var msg := b.msg.(attempts := b.msg.attempts - 1);
    assert EntryOf(s.streams, b.ref) == Some(Decoded(msg)) && b.msg == msg.(attempts := msg.attempts + 1);
    StaysPending(c, s, later, b.ref);
  }

  ghost predicate CanBeBuried(c: Config, s: State, ref: Ref) {
    exists later :: Buried(Run(c, s, later), ref)
  }

  /** The exact condition: after a failing handler run some continuation dead-letters the entry if and only
      if its stored payload is at most one attempt short of the maximum. */
  lemma DeadLetteredIff(c: Config, n: nat, acts: seq<Action>, w: nat, ref: Ref, msg: QueueMessage, v: Verdict)
    requires var s := Run(c, Init(n), acts); w < |s.workers| && s.workers[w] == Handling(ref, msg)
    requires !v.ok
    ensures EntryOf(Run(c, Init(n), acts).streams, ref) == Some(Decoded(msg))
    ensures CanBeBuried(c, Step(c, Run(c, Init(n), acts), Act(w, Finish(v))), ref)
      <==> msg.attempts + 1 >= c.maxAttempts
  {
    hide Run, Inv;
    var s := Run(c, Init(n), acts);
    RunKeepsInv(c, Init(n), acts);
    HandlesStored(c, s, w, ref, msg);
    var t := Step(c, s, Act(w, Finish(v)));
    StepKeepsInv(c, s, Act(w, Finish(v)));
    if msg.attempts + 1 >= c.maxAttempts {
      assert t.workers[w] == Burying(ref, msg.(attempts := msg.attempts + 1));
      BuryNext(c, t, w, ref);
    } else {
      forall later ensures !Buried(Run(c, t, later), ref) {
        RunKeepsInv(c, t, later);
        StepGrows(c, s, Act(w, Finish(v)));
        RunGrows(c, t, later);
        NotBuriedBelowMaximum(c, Run(c, t, later), ref, msg);
      }
    }
  }

  lemma HandlesStored(c: Config, s: State, w: nat, ref: Ref, msg: QueueMessage)
    requires Inv(c, s) && w < |s.workers| && s.workers[w] == Handling(ref, msg)
    ensures EntryOf(s.streams, ref) == Some(Decoded(msg))
  {
    assert WorkerOk(c, s, s.workers[w]);
  }

  lemma BuryNext(c: Config, t: State, w: nat, ref: Ref)
    requires w < |t.workers| && t.workers[w].Burying? && t.workers[w].ref == ref
    ensures CanBeBuried(c, t, ref)
  {
    var bury := [Act(w, Bury(true))];
    assert bury[..0] == [];
    assert Run(c, t, []) == t;
    var u := Run(c, t, bury);
    assert u == Step(c, t, Act(w, Bury(true)));
    assert u.burials[|t.burials|].ref == ref;
    assert Buried(Run(c, t, bury), ref);
  }

  lemma BuriedMeans(c: Config, s: State, ref: Ref, msg: QueueMessage)
    requires Inv(c, s) && EntryOf(s.streams, ref) == Some(Decoded(msg)) && Buried(s, ref)
    ensures msg.attempts + 1 >= c.maxAttempts
  {
    hide Workers, Places, InOrder;
    var i :| 0 <= i < |s.burials| && s.burials[i].ref == ref;
    assert BuriedAs(c, s, ref, s.burials[i].msg);
  }

  lemma NotBuriedBelowMaximum(c: Config, s: State, ref: Ref, msg: QueueMessage)
    requires Inv(c, s) && EntryOf(s.streams, ref) == Some(Decoded(msg)) && msg.attempts + 1 < c.maxAttempts
    ensures !Buried(s, ref)
  {
    hide Inv;
    if Buried(s, ref) {
      BuriedMeans(c, s, ref, msg);
    }
  }

  /** A failed entry is never retried and never acknowledged: it stays pending for ever, and no later
      handler run is of that entry. */
  lemma FailedStaysPending(c: Config, n: nat, acts: seq<Action>, later: seq<Action>, ref: Ref)
    requires Reported(Run(c, Init(n), acts), ref, false)
    ensures var s, t := Run(c, Init(n), acts), Run(c, Run(c, Init(n), acts), later);
      && ref in t.streams.pending && ref !in t.streams.acked && !Reported(t, ref, true)
      && s.started <= t.started && ref in s.started
      && forall i :: |s.started| <= i < |t.started| ==> t.started[i] != ref
  {
    hide Run, Inv;
    var s := Run(c, Init(n), acts);
    RunKeepsInv(c, Init(n), acts);
    StaysPending(c, s, later, ref);
    RunGrows(c, s, later);
    NotStartedAgain(c, s, Run(c, s, later), ref);
  }

  lemma NotStartedAgain(c: Config, s: State, t: State, ref: Ref)
    requires Inv(c, s) && Inv(c, t) && Grows(s, t) && Reported(s, ref, false)
    ensures ref in s.started && forall i :: |s.started| <= i < |t.started| ==> t.started[i] != ref
  {
    hide Workers, Places, InOrder, BuriedAs;
    assert ref in s.started;
    var j :| 0 <= j < |s.started| && s.started[j] == ref;
    assert t.started[j] == ref;
  }

  lemma StaysPending(c: Config, s: State, later: seq<Action>, ref: Ref)
    requires Inv(c, s) && Reported(s, ref, false)
    ensures var t := Run(c, s, later);
      && Inv(c, t)
      && ref in t.streams.pending && ref !in t.streams.acked && Reported(t, ref, false) && !Reported(t, ref, true)
  {
    hide Run, Inv;
    RunKeepsInv(c, s, later);
    RunGrows(c, s, later);
    var t := Run(c, s, later);
    GrowsKeepsReports(s, t, ref, false);
    FailedIsPending(c, t, ref);
  }

  /** A reported failure is the entry's only report, and keeps it from being acknowledged. */
  lemma FailedIsPending(c: Config, t: State, ref: Ref)
    requires Inv(c, t) && Reported(t, ref, false)
    ensures ref in t.streams.pending && ref !in t.streams.acked && !Reported(t, ref, true)
  {
    hide Workers, InOrder, BuriedAs;
    assert ref in t.started;
  }

  lemma StepGrows(c: Config, s: State, a: Action)
    ensures Grows(s, Step(c, s, a))
  {
    if a.Append? {
      EntriesStay(s.streams, a.lane, a.payload);
    }
  }

  lemma {:induction false} RunGrows(c: Config, s: State, acts: seq<Action>)
    ensures Grows(s, Run(c, s, acts))
  {
    if acts != [] {
      RunGrows(c, s, acts[..|acts| - 1]);
      StepGrows(c, Run(c, s, acts[..|acts| - 1]), acts[|acts| - 1]);
    }
  }
}
