/** The fixed-window request limiters in front of the public, member and API-key endpoints. The three
    differ only in how they find the caller's identifier and in the prefix of their keys. */
module RateLimiter {
  import opened Common
  import opened Redis

  datatype Scope = Account | ClientAddress | ApiKey

  /** The server key: prefix of the limiter, identifier, and the minute the clock was read in. */
  datatype Key = Key(scope: Scope, id: string, window: int)

  datatype Response =
    | Passed
    | Admitted(remaining: int)
    | Rejected(retryAfter: int)

  function Window(now: int): int { now / 60 }

  /** First moment at which neither the key's minute nor the one after it is current. */
  function OutOfUse(k: Key): int { 60 * (k.window + 2) }

  function CellDeadline(store: map<Key, Cell>, k: Key, now: int): Option<int> {
    if Exists(store, k, now) then store[k].expireAt else None
  }

  /** What one request does to the counters: its key grows by one, starts a two-minute life when it is
      new and otherwise keeps its deadline, and no other key moves. */
  predicate Handled(max: int, before: map<Key, Cell>, after: map<Key, Cell>, k: Key, now: int, expireFails: bool,
                    admit: bool) {
    var hits := Count(before, k, now) + 1;
    && k in after && after[k].value == hits && after - {k} == before - {k}
    && (hits == 1 ==> after[k].expireAt == if expireFails then CellDeadline(before, k, now) else Some(now + 120))
    && (hits > 1 ==> after[k].expireAt == before[k].expireAt)
    && (admit <==> hits <= max)
  }

  /** The address a request is counted under: the first entry of the forwarding header, else the proxy's
      header, else the remote address up to its last colon. */
  method ClientAddressOf(forwarded: string, realIP: string, remote: string) returns (ip: string)
    ensures forwarded != "" ==>
      && ip <= forwarded && ',' !in ip
      && (ip == forwarded || forwarded[|ip|] == ',')
    ensures forwarded == "" && realIP != "" ==> ip == realIP
    ensures forwarded == "" && realIP == "" ==>
      && ip <= remote
      && (if ip == remote then ':' !in remote else remote[|ip|] == ':' && ':' !in remote[|ip| + 1..])
  {
    if forwarded != "" {
      for i := 0 to |forwarded|
        invariant ',' !in forwarded[..i]
      {
        if forwarded[i] == ',' {
          return forwarded[..i];
        }
      }
      return forwarded;
    }
    if realIP != "" {
      return realIP;
    }
    for i := |remote| downto 0
      invariant ':' !in remote[i..]
    {
      assert remote[i..] == [remote[i]] + remote[i + 1..];
      if remote[i] == ':' {
        return remote[..i];
      }
    }
    return remote;
  }

  class Limiter {
    var store: map<Key, Cell>
    const scope: Scope
    const maxPerMin: int

    constructor (scope: Scope, maxPerMin: int)
      ensures store == map[] && this.scope == scope && this.maxPerMin == maxPerMin
    {
      this.scope, this.maxPerMin := scope, maxPerMin;
      store := map[];
    }

    /** Counts the request in the current minute and admits it while the count is within the limit. A
        rejected caller is told the exact number of seconds to the next minute. A request without an
        identifier, or one the server could not count, passes uncounted; an expiry command that fails
        goes unnoticed. */
    method Limit(id: string, now: nat, countFails: bool, expireFails: bool) returns (r: Response)
      modifies this
      ensures r.Passed? <==> id == "" || countFails
      ensures r.Passed? ==> store == old(store)
      ensures !r.Passed? ==>
        var k := Key(scope, id, Window(now));
        && Handled(maxPerMin, old(store), store, k, now, expireFails, r.Admitted?)
        && (r.Admitted? ==> r.remaining == maxPerMin - Count(store, k, now))
        && (r.Rejected? ==> 1 <= r.retryAfter <= 60 && Window(now + r.retryAfter) == Window(now) + 1
                            && Window(now + r.retryAfter - 1) == Window(now))
    {
      if id == "" {
        return Passed;
      }
      if countFails {
        return Passed;
      }
      var k := Key(scope, id, Window(now));
      store := Incr(store, k, now);
      var count := store[k].value;
      if count == 1 && !expireFails {
        store := Expire(store, k, now, 120);
      }
      var remaining := maxPerMin - count;
      if remaining < 0 {
        remaining := 0;
      }
      if count > maxPerMin {
        return Rejected(60 - now % 60);
      }
      return Admitted(remaining);
    }
  }

  // ---- requests interleaving at the grain of clock readings and server commands ----

  datatype Request =
    | Idle
    | Named(key: Key, readAt: int)
    | Counted(key: Key, readAt: int, incrAt: int, count: int)
    | Ready(key: Key, readAt: int, incrAt: int, count: int)

  datatype Admission = Admission(key: Key, readAt: int, incrAt: int)

  /** `Arrive` reads the clock and forms the key; `Next` is the request's next server command or its
      decision. The result of the expiry command is ignored, so it may fail unnoticed. */
  datatype Move = Arrive(scope: Scope, id: string) | Next(expireFails: bool)

  datatype Action = Tick(seconds: nat) | Act(w: nat, move: Move)

  /** `hits` counts the increments that reached the server before their key was out of use. */
  datatype State = State(now: nat, store: map<Key, Cell>, requests: seq<Request>, hits: map<Key, nat>,
                         admitted: seq<Admission>)

  function Init(n: nat, now: nat): State {
    State(now, map[], seq(n, _ => Idle), map[], [])
  }

  function Hits(s: State, k: Key): nat {
    if k in s.hits then s.hits[k] else 0
  }

  function Become(s: State, w: nat, r: Request): State
    requires w < |s.requests|
  {
    s.(requests := s.requests[w := r])
  }

  function Bump(s: State, k: Key): State {
    s.(store := Incr(s.store, k, s.now), hits := if s.now < OutOfUse(k) then s.hits[k := Hits(s, k) + 1] else s.hits)
  }

  function DoNext(max: int, s: State, w: nat, expireFails: bool): State
    requires w < |s.requests|
  {
    match s.requests[w]
    case Idle => s
    case Named(k, at) => Become(Bump(s, k), w, Counted(k, at, s.now, Count(s.store, k, s.now) + 1))
    case Counted(k, at, incrAt, count) =>
      var s1 := if count == 1 && !expireFails then s.(store := Expire(s.store, k, s.now, 120)) else s;
      Become(s1, w, Ready(k, at, incrAt, count))
    case Ready(k, at, incrAt, count) =>
      var s1 := if count > max then s else s.(admitted := s.admitted + [Admission(k, at, incrAt)]);
      Become(s1, w, Idle)
  }

  function Step(max: int, s: State, a: Action): State {
    match a
    case Tick(d) => s.(now := s.now + d)
    case Act(w, move) =>
      if w >= |s.requests| then s
      else
        match (s.requests[w], move)
        case (Idle, Arrive(scope, id)) =>
          if id == "" then s else Become(s, w, Named(Key(scope, id, Window(s.now)), s.now))
        case (_, Next(expireFails)) => DoNext(max, s, w, expireFails)
        case _ => s
  }

  function Run(max: int, s: State, acts: seq<Action>): State {
    if acts == [] then s else Step(max, Run(max, s, acts[..|acts| - 1]), acts[|acts| - 1])
  }

  // ---- what every run keeps ----

  predicate Punctual(a: Admission) { a.incrAt < OutOfUse(a.key) }

  function On(k: Key): Admission -> bool {
    (a: Admission) => a.key == k && Punctual(a)
  }

  function Within(max: int, k: Key): Request -> bool {
    (r: Request) => (r.Counted? || r.Ready?) && r.key == k && r.incrAt < OutOfUse(k) && r.count <= max
  }

  /** Admissions of one key, not counting requests that stalled until the key was out of use. */
  function Entered(s: State, k: Key): nat { CountWhere(s.admitted, On(k)) }

  function Entering(max: int, s: State, k: Key): nat { CountWhere(s.requests, Within(max, k)) }

  predicate Dated(r: Request, now: int) {
    r.Idle? || (
      && r.key.window == Window(r.readAt) && r.readAt <= now
      && (!r.Named? ==> r.readAt <= r.incrAt))
  }

  ghost predicate Kept(s: State, k: Key) {
    && (k in s.store && s.store[k].expireAt.Some? ==> OutOfUse(k) <= s.store[k].expireAt.value)
    && (s.now < OutOfUse(k) ==> (if k in s.store then s.store[k].value else 0) == Hits(s, k))
  }

  /** Every punctual increment within the limit is either admitted or about to be. */
  ghost predicate Balanced(max: int, s: State, k: Key) {
    Entered(s, k) + Entering(max, s, k) == Min(Max(max, 0), Hits(s, k))
  }

  ghost predicate Inv(max: int, s: State) {
    && (forall w :: 0 <= w < |s.requests| ==> Dated(s.requests[w], s.now))
    && (forall i :: 0 <= i < |s.admitted| ==>
          s.admitted[i].key.window == Window(s.admitted[i].readAt) && s.admitted[i].readAt <= s.admitted[i].incrAt)
    && (forall k: Key :: Kept(s, k) && Balanced(max, s, k))
  }

  lemma CountIsHits(s: State, k: Key)
    requires Kept(s, k) && s.now < OutOfUse(k)
    ensures Count(s.store, k, s.now) == Hits(s, k)
  {
  }

  /** A request changes place without changing its share in any key. */
  lemma MoveKeepsBalance(max: int, s: State, w: nat, r: Request)
    requires Inv(max, s) && w < |s.requests| && Dated(r, s.now)
    requires forall k: Key :: Within(max, k)(r) == Within(max, k)(s.requests[w])
    ensures Inv(max, Become(s, w, r))
  {
    var t := Become(s, w, r);
    forall k: Key ensures Kept(t, k) && Balanced(max, t, k) {
      assert Kept(s, k) && Balanced(max, s, k);
      assert Within(max, k)(r) == Within(max, k)(s.requests[w]);
      CountUpdate(s.requests, w, r, Within(max, k));
    }
  }

  lemma TickKeepsInv(max: int, s: State, d: nat)
    requires Inv(max, s)
    ensures Inv(max, Step(max, s, Tick(d)))
  {
    var t := Step(max, s, Tick(d));
    forall k: Key ensures Kept(t, k) && Balanced(max, t, k) {
      assert Kept(s, k) && Balanced(max, s, k);
    }
    forall w | 0 <= w < |t.requests| ensures Dated(t.requests[w], t.now) {
      assert Dated(s.requests[w], s.now);
    }
  }

  /** An increment of `key` as one key's counts see it. */
  lemma IncrementOneKey(max: int, s: State, w: nat, k: Key)
    requires w < |s.requests| && s.requests[w].Named? && Kept(s, k) && Balanced(max, s, k)
    ensures var t := DoNext(max, s, w, false); Kept(t, k) && Balanced(max, t, k)
  {
    var Named(key, at) := s.requests[w];
    var t := DoNext(max, s, w, false);
    CountUpdate(s.requests, w, t.requests[w], Within(max, k));
    hide CountWhere;
    assert Entered(t, k) == Entered(s, k);
    if k == key && s.now < OutOfUse(k) {
      CountIsHits(s, k);
    }
  }

  lemma IncrementKeepsInv(max: int, s: State, w: nat)
    requires Inv(max, s) && w < |s.requests| && s.requests[w].Named?
    ensures Inv(max, DoNext(max, s, w, false)) && Inv(max, DoNext(max, s, w, true))
  {
    var t := DoNext(max, s, w, false);
    assert Dated(s.requests[w], s.now);
    hide Kept, Balanced;
    forall k: Key ensures Kept(t, k) && Balanced(max, t, k) {
      IncrementOneKey(max, s, w, k);
    }
  }

  lemma ExpireKeepsInv(max: int, s: State, w: nat, expireFails: bool)
    requires Inv(max, s) && w < |s.requests| && s.requests[w].Counted?
    ensures Inv(max, DoNext(max, s, w, expireFails))
  {
    var Counted(key, at, incrAt, count) := s.requests[w];
    var s1 := if count == 1 && !expireFails then s.(store := Expire(s.store, key, s.now, 120)) else s;
    assert Dated(s.requests[w], s.now);
    forall k: Key ensures Kept(s1, k) && Balanced(max, s1, k) {
      assert Kept(s, k) && Balanced(max, s, k);
    }
    MoveKeepsBalance(max, s1, w, Ready(key, at, incrAt, count));
  }

  lemma DecideOneKey(max: int, s: State, w: nat, k: Key)
    requires w < |s.requests| && s.requests[w].Ready? && Kept(s, k) && Balanced(max, s, k)
    ensures var t := DoNext(max, s, w, false); Kept(t, k) && Balanced(max, t, k)
  {
    var Ready(key, at, incrAt, count) := s.requests[w];
    var t := DoNext(max, s, w, false);
    CountUpdate(s.requests, w, Idle, Within(max, k));
    OneMoreEntered(s.admitted, Admission(key, at, incrAt), k);
    hide CountWhere, On;
    var share := Bit(Within(max, k)(s.requests[w]));
    assert Entering(max, t, k) + share == Entering(max, s, k);
    assert Entered(t, k) == Entered(s, k) + share;
  }

  lemma OneMoreEntered(admitted: seq<Admission>, a: Admission, k: Key)
    ensures CountWhere(admitted + [a], On(k)) == CountWhere(admitted, On(k)) + Bit(a.key == k && Punctual(a))
  {
    TakeOfAppend(admitted, a);
  }

  lemma DecideKeepsInv(max: int, s: State, w: nat)
    requires Inv(max, s) && w < |s.requests| && s.requests[w].Ready?
    ensures Inv(max, DoNext(max, s, w, false)) && Inv(max, DoNext(max, s, w, true))
  {
    var t := DoNext(max, s, w, false);
    assert Dated(s.requests[w], s.now);
    hide Kept, Balanced;
    forall k: Key ensures Kept(t, k) && Balanced(max, t, k) {
      DecideOneKey(max, s, w, k);
    }
  }

  lemma StepKeepsInv(max: int, s: State, a: Action)
    requires Inv(max, s)
    ensures Inv(max, Step(max, s, a))
  {
    if a.Tick? {
      TickKeepsInv(max, s, a.seconds);
    } else if a.w < |s.requests| {
      var r := s.requests[a.w];
      if r.Idle? && a.move.Arrive? && a.move.id != "" {
        MoveKeepsBalance(max, s, a.w, Named(Key(a.move.scope, a.move.id, Window(s.now)), s.now));
      } else if r.Named? && a.move.Next? {
        IncrementKeepsInv(max, s, a.w);
      } else if r.Counted? && a.move.Next? {
        ExpireKeepsInv(max, s, a.w, a.move.expireFails);
      } else if r.Ready? && a.move.Next? {
        DecideKeepsInv(max, s, a.w);
      } else {
        assert Step(max, s, a) == s;
      }
    }
  }

  lemma {:induction false} RunKeepsInv(max: int, n: nat, now: nat, acts: seq<Action>)
    ensures Inv(max, Run(max, Init(n, now), acts)) && |Run(max, Init(n, now), acts).requests| == n
  {
    if acts == [] {
      var s := Init(n, now);
      forall k: Key ensures Kept(s, k) && Balanced(max, s, k) {
        CountNone(s.requests, Within(max, k));
      }
    } else {
      hide Inv;
      RunKeepsInv(max, n, now, acts[..|acts| - 1]);
      StepKeepsInv(max, Run(max, Init(n, now), acts[..|acts| - 1]), acts[|acts| - 1]);
    }
  }

  /** However requests interleave and stall, and whether or not the expiry commands succeed, at most
      `max` requests of one key are admitted among those that are counted before the key is out of use;
      once nothing is in flight it is exactly as many as were counted, up to `max`. */
  lemma PunctualPerAlignedMinute(max: int, n: nat, now: nat, acts: seq<Action>, k: Key)
    ensures var s := Run(max, Init(n, now), acts);
      && Entered(s, k) <= Max(max, 0)
      && ((forall w :: 0 <= w < |s.requests| ==> s.requests[w].Idle?) ==> Entered(s, k) == Min(Max(max, 0), Hits(s, k)))
  {
    RunKeepsInv(max, n, now, acts);
    var s := Run(max, Init(n, now), acts);
    assert Balanced(max, s, k);
    if forall w :: 0 <= w < |s.requests| ==> s.requests[w].Idle? {
      CountNone(s.requests, Within(max, k));
    }
  }

  function Of(k: Key): Admission -> bool {
    (a: Admission) => a.key == k
  }

  /** One identifier's admissions whose clock reading fell into the sixty seconds from `from`. */
  function ReadFrom(scope: Scope, id: string, from: int): Admission -> bool {
    (a: Admission) => a.key.scope == scope && a.key.id == id && from <= a.readAt < from + 60
  }

  /** One identifier's admissions that were counted in the sixty seconds from `from`. */
  function CountedFrom(scope: Scope, id: string, from: int): Admission -> bool {
    (a: Admission) => a.key.scope == scope && a.key.id == id && from <= a.incrAt < from + 60
  }

  function And(p: Admission -> bool, q: Admission -> bool): Admission -> bool {
    (a: Admission) => p(a) && q(a)
  }

  /** The two-minute expiry never forgets a minute that is current or just past. */
  lemma ExpiryForgetsNothingInUse(max: int, n: nat, now: nat, acts: seq<Action>, k: Key)
    requires Window(Run(max, Init(n, now), acts).now) <= k.window + 1
    ensures var s := Run(max, Init(n, now), acts); Count(s.store, k, s.now) == Hits(s, k)
  {
    RunKeepsInv(max, n, now, acts);
    var s := Run(max, Init(n, now), acts);
    assert Kept(s, k);
    CountIsHits(s, k);
  }

  // ---- the time a request may take between reading the clock and counting ----

  /** No request waits longer than `d` between reading the clock and its increment. */
  ghost predicate Prompt(max: int, s: State, acts: seq<Action>, d: int) {
    acts == [] || (
      && Prompt(max, s, acts[..|acts| - 1], d)
      && InTime(Run(max, s, acts[..|acts| - 1]), acts[|acts| - 1], d))
  }

  predicate InTime(s: State, a: Action, d: int) {
    a.Act? && a.move.Next? && a.w < |s.requests| && s.requests[a.w].Named? ==> s.now <= s.requests[a.w].readAt + d
  }

  ghost predicate CountedWithin(s: State, d: int) {
    && (forall w :: 0 <= w < |s.requests| && (s.requests[w].Counted? || s.requests[w].Ready?) ==>
          s.requests[w].incrAt <= s.requests[w].readAt + d)
    && (forall i :: 0 <= i < |s.admitted| ==> s.admitted[i].incrAt <= s.admitted[i].readAt + d)
  }

  lemma {:induction false} PromptCountsWithin(max: int, n: nat, now: nat, acts: seq<Action>, d: int)
    requires Prompt(max, Init(n, now), acts, d)
    ensures CountedWithin(Run(max, Init(n, now), acts), d)
  {
    if acts != [] {
      PromptCountsWithin(max, n, now, acts[..|acts| - 1], d);
      StepCountsWithin(max, Run(max, Init(n, now), acts[..|acts| - 1]), acts[|acts| - 1], d);
    }
  }

  lemma StepCountsWithin(max: int, s: State, a: Action, d: int)
    requires CountedWithin(s, d) && InTime(s, a, d)
    ensures CountedWithin(Step(max, s, a), d)
  {
    hide Incr, Expire;
  }

  /** Sixty seconds are always punctual. */
  lemma PromptIsPunctual(max: int, n: nat, now: nat, acts: seq<Action>, d: int)
    requires d <= 60 && Prompt(max, Init(n, now), acts, d)
    ensures forall i :: 0 <= i < |Run(max, Init(n, now), acts).admitted| ==>
      Punctual(Run(max, Init(n, now), acts).admitted[i])
  {
    hide Run;
    PromptCountsWithin(max, n, now, acts, d);
    RunKeepsInv(max, n, now, acts);
  }

  /** When no request waits more than sixty seconds before it is counted, each identifier is admitted at
      most `max` times in each aligned minute, and exactly as often as it was counted, up to `max`, once
      nothing is in flight. */
  lemma AdmittedPerAlignedMinute(max: int, n: nat, now: nat, acts: seq<Action>, d: int, k: Key)
    requires d <= 60 && Prompt(max, Init(n, now), acts, d)
    ensures var s := Run(max, Init(n, now), acts);
      && CountWhere(s.admitted, Of(k)) <= Max(max, 0)
      && ((forall w :: 0 <= w < |s.requests| ==> s.requests[w].Idle?) ==>
            CountWhere(s.admitted, Of(k)) == Min(Max(max, 0), Hits(s, k)))
  {
    hide Run;
    PunctualPerAlignedMinute(max, n, now, acts, k);
    PromptIsPunctual(max, n, now, acts, d);
    CountMono(Run(max, Init(n, now), acts).admitted, Of(k), On(k));
    CountMono(Run(max, Init(n, now), acts).admitted, On(k), Of(k));
  }

  /** Sixty consecutive seconds see at most `2 * max` punctual admissions by the time the request read the
      clock, and at most `3 * max` by the time it was counted. */
  lemma PunctualPerAnyMinute(max: int, n: nat, now: nat, acts: seq<Action>, scope: Scope, id: string, from: int)
    ensures var admitted := Run(max, Init(n, now), acts).admitted;
      && CountWhere(admitted, And(ReadFrom(scope, id, from), Punctual)) <= 2 * Max(max, 0)
      && CountWhere(admitted, And(CountedFrom(scope, id, from), Punctual)) <= 3 * Max(max, 0)
  {
    hide Run;
    RunKeepsInv(max, n, now, acts);
    var admitted := Run(max, Init(n, now), acts).admitted;
    var minute := Window(from);
    var first, second, third := Key(scope, id, minute - 1), Key(scope, id, minute), Key(scope, id, minute + 1);
    CountCover(admitted, And(ReadFrom(scope, id, from), Punctual), On(second), On(third));
    var later := (a: Admission) => On(second)(a) || On(third)(a);
    CountCover(admitted, And(CountedFrom(scope, id, from), Punctual), On(first), later);
    CountCover(admitted, later, On(second), On(third));
    PunctualPerAlignedMinute(max, n, now, acts, first);
    PunctualPerAlignedMinute(max, n, now, acts, second);
    PunctualPerAlignedMinute(max, n, now, acts, third);
  }

  /** The same bounds for all admissions when no request waits more than sixty seconds. */
  lemma AdmittedPerAnyMinute(max: int, n: nat, now: nat, acts: seq<Action>, d: int, scope: Scope, id: string, from: int)
    requires d <= 60 && Prompt(max, Init(n, now), acts, d)
    ensures var admitted := Run(max, Init(n, now), acts).admitted;
      && CountWhere(admitted, ReadFrom(scope, id, from)) <= 2 * Max(max, 0)
      && CountWhere(admitted, CountedFrom(scope, id, from)) <= 3 * Max(max, 0)
  {
    hide Run;
    var admitted := Run(max, Init(n, now), acts).admitted;
    PromptIsPunctual(max, n, now, acts, d);
    PunctualPerAnyMinute(max, n, now, acts, scope, id, from);
    CountMono(admitted, ReadFrom(scope, id, from), And(ReadFrom(scope, id, from), Punctual));
    CountMono(admitted, CountedFrom(scope, id, from), And(CountedFrom(scope, id, from), Punctual));
  }

  lemma {:induction false} RunConcat(max: int, s: State, first: seq<Action>, second: seq<Action>)
    ensures Run(max, s, first + second) == Run(max, Run(max, s, first), second)
  {
    if second == [] {
      assert first + second == first;
    } else {
      RunConcat(max, s, first, second[..|second| - 1]);
      assert (first + second)[..|first + second| - 1] == first + second[..|second| - 1];
    }
  }

  lemma RunOne(max: int, s: State, a: Action)
    ensures Run(max, s, [a]) == Step(max, s, a)
  {
    assert [a][..0] == [];
  }

  lemma RunTwo(max: int, s: State, a: Action, b: Action)
    ensures Run(max, s, [a, b]) == Step(max, Step(max, s, a), b)
  {
    hide Step;
    RunOne(max, s, a);
    assert [a, b][..1] == [a];
  }

  function Exchange(w: nat): seq<Action> {
    [Act(w, Next(false)), Act(w, Next(false)), Act(w, Next(false))]
  }

  /** One request carried from its counter to its decision without interference does what a call of the
      limiter does. */
  lemma ExchangeIsLimit(max: int, s: State, w: nat)
    requires w < |s.requests| && s.requests[w].Named?
    ensures var k := s.requests[w].key; var t := Run(max, s, Exchange(w));
      && Handled(max, s.store, t.store, k, s.now, false, t.admitted != s.admitted)
      && (t.admitted == s.admitted || t.admitted == s.admitted + [Admission(k, s.requests[w].readAt, s.now)])
      && t.now == s.now && t.requests == s.requests[w := Idle]
  {
    hide Step;
    var next := Act(w, Next(false));
    var Named(k, at) := s.requests[w];
    RunTwo(max, s, next, next);
    RunOne(max, Step(max, Step(max, s, next), next), next);
    RunConcat(max, s, [next, next], [next]);
    assert Exchange(w) == [next, next] + [next];
    NextStep(max, s, w);
    var s1 := DoNext(max, s, w, false);
    NextStep(max, s1, w);
    var s2 := DoNext(max, s1, w, false);
    assert s2.requests == s.requests[w := Ready(k, at, s.now, Count(s.store, k, s.now) + 1)];
    NextStep(max, s2, w);
  }

  lemma NextStep(max: int, s: State, w: nat)
    requires w < |s.requests|
    ensures Step(max, s, Act(w, Next(false))) == DoNext(max, s, w, false)
  {
  }

  // ---- sixty seconds is the limit ----

  ghost predicate Reachable(max: int, n: nat, d: int, s: State) {
    exists acts :: Prompt(max, Init(n, 0), acts, d) && Run(max, Init(n, 0), acts) == s
  }

  lemma ReachStep(max: int, n: nat, d: int, s: State, a: Action)
    requires Reachable(max, n, d, s) && InTime(s, a, d)
    ensures Reachable(max, n, d, Step(max, s, a))
  {
    hide Step, InTime;
    var acts :| Prompt(max, Init(n, 0), acts, d) && Run(max, Init(n, 0), acts) == s;
    var more := acts + [a];
    TakeOfAppend(acts, a);
    assert Prompt(max, Init(n, 0), more, d) && Run(max, Init(n, 0), more) == Step(max, s, a);
  }

  const KEY := Key(Account, "a", 0)

  /** `count` requests were admitted on a key that expires at 120, and nothing is in flight. */
  ghost predicate Filled(max: int, n: nat, s: State, count: nat) {
    && s.requests == seq(n, _ => Idle)
    && CountWhere(s.admitted, Of(KEY)) == count
    && (if count == 0 then KEY !in s.store else KEY in s.store && s.store[KEY] == Cell(count, Some(120)))
  }

  /** One more request: it reads the clock, waits, and is counted, expired and decided in one go. */
  lemma OneMore(max: int, n: nat, d: int, s: State, wait: nat) returns (t: State)
    requires n >= 1 && Reachable(max, n, d, s) && s.requests == seq(n, _ => Idle) && s.now < 60 && wait <= d
    requires Count(s.store, KEY, s.now + wait) < max
    ensures Reachable(max, n, d, t) && t.now == s.now + wait && t.requests == s.requests
    ensures CountWhere(t.admitted, Of(KEY)) == CountWhere(s.admitted, Of(KEY)) + 1
    ensures Handled(max, s.store, t.store, KEY, t.now, false, true)
  {
    hide Reachable, Exchange, Run, Handled, CountWhere;
    var named := Become(s, 0, Named(KEY, s.now));
    ReachStep(max, n, d, s, Act(0, Arrive(Account, "a")));
    assert Step(max, s, Act(0, Arrive(Account, "a"))) == named;
    var later := named.(now := s.now + wait);
    ReachStep(max, n, d, named, Tick(wait));
    assert Step(max, named, Tick(wait)) == later;
    t := Run(max, later, Exchange(0));
    ReachExchange(max, n, d, later);
    ExchangeIsLimit(max, later, 0);
    HandledAdmits(max, s.store, t.store, t.now, t.admitted != s.admitted);
    AdmittedOneMore(s.admitted, Admission(KEY, s.now, t.now));
    assert t.requests == s.requests;
  }

  lemma HandledAdmits(max: int, before: map<Key, Cell>, after: map<Key, Cell>, now: int, admit: bool)
    requires Handled(max, before, after, KEY, now, false, admit) && Count(before, KEY, now) < max
    ensures admit
  {
  }

  lemma AdmittedOneMore(admitted: seq<Admission>, a: Admission)
    requires a.key == KEY
    ensures CountWhere(admitted + [a], Of(KEY)) == CountWhere(admitted, Of(KEY)) + 1
  {
    TakeOfAppend(admitted, a);
  }

  lemma ReachExchange(max: int, n: nat, d: int, s: State)
    requires n >= 1 && Reachable(max, n, d, s) && |s.requests| == n && s.requests[0].Named?
    requires s.now <= s.requests[0].readAt + d
    ensures Reachable(max, n, d, Run(max, s, Exchange(0)))
  {
    hide Step, Reachable;
    var next := Act(0, Next(false));
    NextStep(max, s, 0);
    var s1 := DoNext(max, s, 0, false);
    ReachStep(max, n, d, s, next);
    NextStep(max, s1, 0);
    var s2 := DoNext(max, s1, 0, false);
    ReachStep(max, n, d, s1, next);
    ReachStep(max, n, d, s2, next);
    RunTwo(max, s, next, next);
    RunOne(max, s2, next);
    RunConcat(max, s, [next, next], [next]);
    assert Exchange(0) == [next, next] + [next];
  }

  lemma {:induction false} FillUp(max: int, n: nat, d: int, count: nat) returns (s: State)
    requires n >= 1 && d >= 0 && count <= max
    ensures Reachable(max, n, d, s) && s.now == 0 && Filled(max, n, s, count)
  {
    if count == 0 {
      s := Init(n, 0);
      assert Prompt(max, Init(n, 0), [], d) && Run(max, Init(n, 0), []) == s;
    } else {
      var before := FillUp(max, n, d, count - 1);
      s := OneMore(max, n, d, before, 0);
    }
  }

  /** A request that read the clock in the last second of a full minute and is counted sixty-one seconds
      later finds its key expired. */
  lemma LateRequestEntersFullMinute(max: int, n: nat, d: int) returns (acts: seq<Action>)
    requires max >= 1 && n >= 1 && d >= 61
    ensures Prompt(max, Init(n, 0), acts, d)
    ensures CountWhere(Run(max, Init(n, 0), acts).admitted, Of(KEY)) == max + 1
  {
    hide Prompt, Run, InTime;
    var full := FillUp(max, n, d, max);
    var later := full.(now := 59);
    assert InTime(full, Tick(59), d) by { TicksAreInTime(full, 59, d); }
    ReachStep(max, n, d, full, Tick(59));
    assert Step(max, full, Tick(59)) == later;
    var t := OneMore(max, n, d, later, 61);
    acts :| Prompt(max, Init(n, 0), acts, d) && Run(max, Init(n, 0), acts) == t;
  }

  lemma TicksAreInTime(s: State, seconds: nat, d: int)
    ensures InTime(s, Tick(seconds), d)
  {
  }

  /** Every run whose requests wait at most `d` seconds keeps the per-minute limit. */
  ghost predicate KeepsLimit(max: int, n: nat, d: int) {
    forall now: nat, acts, k :: Prompt(max, Init(n, now), acts, d) ==>
      CountWhere(Run(max, Init(n, now), acts).admitted, Of(k)) <= max
  }

  /** The exact condition: the limit holds in every run if and only if no request waits more than sixty
      seconds between reading the clock and its increment. */
  lemma LimitHoldsIff(max: int, n: nat, d: int)
    requires max >= 1 && n >= 1 && d >= 0
    ensures KeepsLimit(max, n, d) <==> d <= 60
  {
    hide Prompt, Run;
    if d <= 60 {
      forall now: nat, acts, k | Prompt(max, Init(n, now), acts, d)
        ensures CountWhere(Run(max, Init(n, now), acts).admitted, Of(k)) <= max
      {
        AdmittedPerAlignedMinute(max, n, now, acts, d, k);
      }
    } else {
      var acts := LateRequestEntersFullMinute(max, n, d);
    }
  }
}
