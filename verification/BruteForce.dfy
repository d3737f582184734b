/** The attempt window and lockout in front of the authentication endpoints, for requests that are
    handled one at a time. Times are integers in any unit. */
module BruteForce {
  import opened Common
  import opened Redis

  /** Whose attempts are counted: an endpoint's identifier and a client address. */
  datatype Who = Who(identifier: string, ip: string)

  datatype Key = Attempts(who: Who) | Lockout(who: Who)

  datatype Config = Config(maxAttempts: int, window: int, lockout: int)

  datatype Decision =
    | Passed(remaining: int)
    | PassedUncounted
    | StillLocked(retryAfter: int)
    | LocksOut(retryAfter: int)

  predicate Usable(c: Config) { c.window >= 1 && c.lockout >= 1 }

  /** The counters after a request and its fate. */
  function Handle(c: Config, store: map<Key, Cell>, who: Who, now: int): (map<Key, Cell>, Decision) {
    if Exists(store, Lockout(who), now) then
      (store, StillLocked(TtlOf(store[Lockout(who)], now)))
    else HandleUnlocked(c, store, who, now)
  }

  function HandleUnlocked(c: Config, store: map<Key, Cell>, who: Who, now: int): (map<Key, Cell>, Decision) {
    var count := Count(store, Attempts(who), now) + 1;
    if count > c.maxAttempts then
      (Del(Set(store, Lockout(who), 1, now, c.lockout), Attempts(who)), LocksOut(c.lockout))
    else
      var deadline := if count == 1 then Some(now + c.window) else CellDeadline(store, Attempts(who));
      (store[Attempts(who) := Cell(count, deadline)],
       Passed(c.maxAttempts - count))
  }

  function TtlOf(cell: Cell, now: int): int {
    match cell.expireAt case Some(at) => at - now case None => -1
  }

  function CellDeadline(store: map<Key, Cell>, k: Key): Option<int> {
    if k in store then store[k].expireAt else None
  }

  /** The counter's cell after INCR and, on a first attempt, EXPIRE. */
  lemma CountedCell(store: map<Key, Cell>, key: Key, now: int, window: int)
    ensures var counted, count := Incr(store, key, now), Count(store, key, now) + 1;
      && key in counted && counted[key].value == count && counted - {key} == store - {key}
      && (if count == 1 then Expire(counted, key, now, window) else counted)
         == store[key := Cell(count, if count == 1 then Some(now + window) else CellDeadline(store, key))]
  {
  }

  class Protector {
    var store: map<Key, Cell>
    const c: Config

    constructor (c: Config)
      ensures store == map[] && this.c == c
    {
      this.c := c;
      store := map[];
    }

    /** An unknown client address falls back to the remote address of the connection. When the lockout
        cannot be looked up the request is counted regardless; when it cannot be counted it passes. */
    method Protect(identifier: string, clientIP: string, remoteAddr: string, now: int, lookupFails: bool,
                   countFails: bool)
      returns (d: Decision)
      modifies this
      ensures var who := Who(identifier, if clientIP == "" then remoteAddr else clientIP);
        var locked := !lookupFails && Exists(old(store), Lockout(who), now);
        if !locked && countFails then store == old(store) && d == PassedUncounted
        else if lookupFails then (store, d) == HandleUnlocked(c, old(store), who, now)
        else (store, d) == Handle(c, old(store), who, now)
      ensures var who := Who(identifier, if clientIP == "" then remoteAddr else clientIP);
        var count := Count(old(store), Attempts(who), now) + 1;
        match d
        case PassedUncounted => store == old(store)
        case StillLocked(retryAfter) =>
          && store == old(store) && Lockout(who) in store
          && store[Lockout(who)].expireAt in {None, Some(now + retryAfter)}
        case LocksOut(retryAfter) =>
          && retryAfter == c.lockout && count > c.maxAttempts && Attempts(who) !in store
          && Lockout(who) in store && store[Lockout(who)].expireAt == Some(now + retryAfter)
          && store - {Attempts(who), Lockout(who)} == old(store) - {Attempts(who), Lockout(who)}
        case Passed(remaining) =>
          && 0 <= remaining == c.maxAttempts - count && Attempts(who) in store && store[Attempts(who)].value == count
          && (count == 1 ==> store[Attempts(who)].expireAt == Some(now + c.window))
          && (count != 1 && Attempts(who) in old(store) ==>
                store[Attempts(who)].expireAt == old(store)[Attempts(who)].expireAt)
          && store - {Attempts(who)} == old(store) - {Attempts(who)}
    {
      var ip := clientIP;
      if ip == "" {
        ip := remoteAddr;
      }
      var key, lockoutKey := Attempts(Who(identifier, ip)), Lockout(Who(identifier, ip));
      if !lookupFails && Exists(store, lockoutKey, now) {
        return StillLocked(TtlOf(store[lockoutKey], now));
      }
      if countFails {
        return PassedUncounted;
      }
      hide Incr, Expire;
      store := Incr(store, key, now);
      CountedCell(old(store), key, now, c.window);
      var count := store[key].value;
      if count == 1 {
        store := Expire(store, key, now, c.window);
      }
      var remaining := c.maxAttempts - count;
      if remaining < 0 {
        remaining := 0;
      }
      if count > c.maxAttempts {
        store := Set(store, lockoutKey, 1, now, c.lockout);
        store := Del(store, key);
        assert store == Del(Set(old(store), lockoutKey, 1, now, c.lockout), key);
        return LocksOut(c.lockout);
      }
      return Passed(remaining);
    }

    method Reset(identifier: string, ip: string)
      modifies this
      ensures store == Del(old(store), Attempts(Who(identifier, ip)))
    {
      store := Del(store, Attempts(Who(identifier, ip)));
    }
  }

  // ---- whole runs, watching one client ----

  datatype Event = Request(wait: nat, who: Who) | Reset(wait: nat, who: Who)

  /** A request of the watched client that was let through, and the attempt window it fell into. */
  datatype Pass = Pass(at: int, gen: nat)

  /** `starts` are the moments the watched client's successive attempt windows opened. */
  datatype State = State(now: int, store: map<Key, Cell>, starts: seq<int>, passes: seq<Pass>)

  function Init(now: int): State { State(now, map[], [], []) }

  predicate Opens(s: State, who: Who, now: int) {
    !Exists(s.store, Lockout(who), now) && !Exists(s.store, Attempts(who), now)
  }

  function Step(c: Config, who: Who, s: State, e: Event): State {
    var now := s.now + e.wait;
    match e
    case Reset(_, other) => s.(now := now, store := Del(s.store, Attempts(other)))
    case Request(_, other) =>
      var (store, d) := Handle(c, s.store, other, now);
      var starts := if other == who && Opens(s, who, now) then s.starts + [now] else s.starts;
      State(now, store, starts,
            if other == who && d.Passed? && starts != [] then s.passes + [Pass(now, |starts| - 1)] else s.passes)
  }

  function Run(c: Config, who: Who, s: State, events: seq<Event>): State {
    if events == [] then s else Step(c, who, Run(c, who, s, events[..|events| - 1]), events[|events| - 1])
  }

  /** The watched client's attempts are never reset; the gateway itself never does it. */
  predicate NoReset(who: Who, events: seq<Event>) {
    forall i :: 0 <= i < |events| && events[i].Reset? ==> events[i].who != who
  }

  function InWindow(gen: nat): Pass -> bool {
    (p: Pass) => p.gen == gen
  }

  function PassesIn(s: State, gen: nat): nat { CountWhere(s.passes, InWindow(gen)) }

  predicate PassInv(c: Config, s: State, p: Pass) {
    && p.gen < |s.starts| && s.starts[p.gen] <= p.at <= s.now
    && p.at < s.starts[p.gen] + c.window
    && c.maxAttempts >= 1 && (c.maxAttempts == 1 ==> p.at == s.starts[p.gen])
    && (p.gen + 1 < |s.starts| ==> p.at < s.starts[p.gen + 1])
  }

  /** Either the last window's counter is there, exact and with its deadline, or the window was ended by
      a lockout that outlives every request let through so far. */
  ghost predicate CounterInv(c: Config, who: Who, s: State)
    requires s.starts != []
  {
    var last := |s.starts| - 1;
    if Attempts(who) in s.store then
      && s.store[Attempts(who)] == Cell(PassesIn(s, last), Some(s.starts[last] + c.window)) && PassesIn(s, last) >= 1
      && AllBefore(s.passes, s.starts[last] + c.window)
    else
      && Lockout(who) in s.store && s.store[Lockout(who)].expireAt.Some?
      && s.starts[last] + c.lockout <= s.store[Lockout(who)].expireAt.value
      && AllBefore(s.passes, s.store[Lockout(who)].expireAt.value)
  }

  predicate AllBefore(passes: seq<Pass>, t: int) {
    forall i :: 0 <= i < |passes| ==> passes[i].at < t
  }

  function Gap(c: Config): int { Min(c.window, c.lockout) }

  ghost predicate Spaced(c: Config, starts: seq<int>, now: int) {
    && (forall g :: 0 <= g < |starts| - 1 ==> starts[g] + Gap(c) <= starts[g + 1])
    && (starts != [] ==> starts[|starts| - 1] <= now)
  }

  ghost predicate Ordered(passes: seq<Pass>) {
    forall i, j :: 0 <= i < j < |passes| ==> passes[i].gen <= passes[j].gen
  }

  ghost predicate Inv(c: Config, who: Who, s: State) {
    && Spaced(c, s.starts, s.now)
    && (forall i :: 0 <= i < |s.passes| ==> PassInv(c, s, s.passes[i]))
    && Ordered(s.passes)
    && (forall g: nat :: PassesIn(s, g) <= Max(c.maxAttempts, 0))
    && (if s.starts == [] then Attempts(who) !in s.store && Lockout(who) !in s.store else CounterInv(c, who, s))
  }

  /** Time passes and other clients' counters change. */
  lemma OthersKeepInv(c: Config, who: Who, s: State, t: State)
    requires Inv(c, who, s) && s.now <= t.now && t.starts == s.starts && t.passes == s.passes
    requires forall k: Key :: k.who == who ==>
      (k in t.store <==> k in s.store) && (k in s.store ==> t.store[k] == s.store[k])
    ensures Inv(c, who, t)
  {
    forall i | 0 <= i < |t.passes| ensures PassInv(c, t, t.passes[i]) {
      assert PassInv(c, s, s.passes[i]);
    }
    forall g: nat ensures PassesIn(t, g) <= Max(c.maxAttempts, 0) {
      assert PassesIn(s, g) <= Max(c.maxAttempts, 0);
    }
    assert Attempts(who).who == who && Lockout(who).who == who;
  }

  /** A new window opens only after everything in the one before, and a gap after its start. */
  lemma OpenKeepsHistory(c: Config, who: Who, s: State, now: int)
    requires Usable(c) && Inv(c, who, s) && s.now <= now && Opens(s, who, now)
    ensures Spaced(c, s.starts + [now], now)
    ensures AllBefore(s.passes, now)
  {
  }

  /** The windows are the old ones, or one more just opened after everything let through so far. */
  predicate SameOrOpened(s: State, t: State) {
    t.starts == s.starts || (t.starts == s.starts + [t.now] && AllBefore(s.passes, t.now))
  }

  lemma PassesCarryOver(c: Config, s: State, t: State, p: Pass)
    requires PassInv(c, s, p) && SameOrOpened(s, t) && s.now <= t.now && p in s.passes
    ensures PassInv(c, t, p)
  {
  }

  /** One more request let through, in the last window. */
  lemma PassAdds(passes: seq<Pass>, at: int, last: nat)
    ensures forall g: nat ::
      CountWhere(passes + [Pass(at, last)], InWindow(g)) == CountWhere(passes, InWindow(g)) + Bit(g == last)
  {
    TakeOfAppend(passes, Pass(at, last));
  }

  /** A request lands in window `|starts| - 1`, old or just opened. */
  lemma AdmitKeepsInv(c: Config, who: Who, s: State, t: State)
    requires Inv(c, who, s) && s.now <= t.now && t.starts != []
    requires var last := |t.starts| - 1;
      && Spaced(c, t.starts, t.now) && t.passes == s.passes + [Pass(t.now, last)]
      && t.now < t.starts[last] + c.window
      && PassesIn(s, last) < c.maxAttempts
      && (t.starts == s.starts ==> PassesIn(s, last) >= 1)
      && Attempts(who) in t.store
      && t.store[Attempts(who)] == Cell(PassesIn(s, last) + 1, Some(t.starts[last] + c.window))
    requires SameOrOpened(s, t)
    ensures Inv(c, who, t)
  {
    hide CountWhere;
    var last := |t.starts| - 1;
    assert PassInv(c, t, Pass(t.now, last));
    forall i | 0 <= i < |t.passes| ensures PassInv(c, t, t.passes[i]) && t.passes[i].gen <= last {
      if i < |s.passes| {
        PassesCarryOver(c, s, t, s.passes[i]);
      }
    }
    PassAdds(s.passes, t.now, last);
    forall g: nat ensures PassesIn(t, g) <= Max(c.maxAttempts, 0) {
      assert PassesIn(s, g) <= Max(c.maxAttempts, 0);
    }
  }

  /** A lockout ends window `|starts| - 1`, old or just opened. */
  lemma LockKeepsInv(c: Config, who: Who, s: State, t: State)
    requires Usable(c) && Inv(c, who, s) && s.now <= t.now && t.starts != [] && t.passes == s.passes
    requires Spaced(c, t.starts, t.now)
    requires Attempts(who) !in t.store && Lockout(who) in t.store
      && t.store[Lockout(who)].expireAt == Some(t.now + c.lockout)
    requires SameOrOpened(s, t)
    ensures Inv(c, who, t)
  {
    hide CountWhere;
    forall i | 0 <= i < |t.passes| ensures PassInv(c, t, t.passes[i]) {
      PassesCarryOver(c, s, t, s.passes[i]);
    }
    forall g: nat ensures PassesIn(t, g) <= Max(c.maxAttempts, 0) {
      assert PassesIn(s, g) <= Max(c.maxAttempts, 0);
    }
  }

  lemma LockedKeepsInv(c: Config, who: Who, s: State, wait: nat)
    requires Inv(c, who, s) && Exists(s.store, Lockout(who), s.now + wait)
    ensures Inv(c, who, Step(c, who, s, Request(wait, who)))
  {
    hide Inv;
    OthersKeepInv(c, who, s, Step(c, who, s, Request(wait, who)));
  }

  lemma {:induction false} OpeningKeepsInv(c: Config, who: Who, s: State, wait: nat)
    requires Usable(c) && Inv(c, who, s) && Opens(s, who, s.now + wait)
    ensures Inv(c, who, Step(c, who, s, Request(wait, who)))
  {
    var now := s.now + wait;
    var t := Step(c, who, s, Request(wait, who));
    OpenKeepsHistory(c, who, s, now);
    Fresh(c, who, s);
    hide Inv, Spaced, AllBefore, PassesIn;
    assert t.starts == s.starts + [now] && t.now == now;
    if c.maxAttempts >= 1 {
      assert t.store == s.store[Attempts(who) := Cell(1, Some(now + c.window))];
      AdmitKeepsInv(c, who, s, t);
    } else {
      LockKeepsInv(c, who, s, t);
    }
  }

  lemma CountIsPasses(c: Config, who: Who, s: State, now: int)
    requires Inv(c, who, s) && Exists(s.store, Attempts(who), now)
    ensures s.starts != []
    ensures var last := |s.starts| - 1;
      && s.store[Attempts(who)] == Cell(PassesIn(s, last), Some(s.starts[last] + c.window))
      && now < s.starts[last] + c.window && PassesIn(s, last) >= 1
  {
  }

  lemma InvIsSpaced(c: Config, who: Who, s: State)
    requires Inv(c, who, s)
    ensures Spaced(c, s.starts, s.now)
  {
  }

  lemma {:induction false} ContinuingKeepsInv(c: Config, who: Who, s: State, wait: nat)
    requires Usable(c) && Inv(c, who, s)
    requires !Exists(s.store, Lockout(who), s.now + wait) && Exists(s.store, Attempts(who), s.now + wait)
    ensures Inv(c, who, Step(c, who, s, Request(wait, who)))
  {
    hide Inv, Spaced, AllBefore, PassesIn;
    var now := s.now + wait;
    var t := Step(c, who, s, Request(wait, who));
    CountIsPasses(c, who, s, now);
    InvIsSpaced(c, who, s);
    LaterIsSpaced(c, s.starts, s.now, now);
    assert t.starts == s.starts && t.now == now;
    var count := PassesIn(s, |s.starts| - 1) + 1;
    if count <= c.maxAttempts {
      assert t.store == s.store[Attempts(who) := Cell(count, s.store[Attempts(who)].expireAt)];
      AdmitKeepsInv(c, who, s, t);
    } else {
      LockKeepsInv(c, who, s, t);
    }
  }

  lemma LaterIsSpaced(c: Config, starts: seq<int>, now: int, later: int)
    requires Spaced(c, starts, now) && now <= later
    ensures Spaced(c, starts, later)
  {
  }

  lemma Fresh(c: Config, who: Who, s: State)
    requires Inv(c, who, s)
    ensures PassesIn(s, |s.starts|) == 0
  {
    forall i | 0 <= i < |s.passes| ensures s.passes[i].gen < |s.starts| {
      assert PassInv(c, s, s.passes[i]);
    }
    CountNone(s.passes, InWindow(|s.starts|));
  }

  lemma {:induction false} StepKeepsInv(c: Config, who: Who, s: State, e: Event)
    requires Usable(c) && Inv(c, who, s) && !(e.Reset? && e.who == who)
    ensures Inv(c, who, Step(c, who, s, e))
  {
    hide Inv;
    if e.Request? && e.who == who {
      if Exists(s.store, Lockout(who), s.now + e.wait) {
        LockedKeepsInv(c, who, s, e.wait);
      } else if Opens(s, who, s.now + e.wait) {
        OpeningKeepsInv(c, who, s, e.wait);
      } else {
        ContinuingKeepsInv(c, who, s, e.wait);
      }
    } else {
      OthersKeepInv(c, who, s, Step(c, who, s, e));
    }
  }

  lemma {:induction false} RunKeepsInv(c: Config, who: Who, now: int, events: seq<Event>)
    requires Usable(c) && NoReset(who, events)
    ensures Inv(c, who, Run(c, who, Init(now), events))
  {
    if events == [] {
      assert Inv(c, who, Init(now));
    } else {
      hide Inv, Step;
      RunKeepsInv(c, who, now, events[..|events| - 1]);
      StepKeepsInv(c, who, Run(c, who, Init(now), events[..|events| - 1]), events[|events| - 1]);
    }
  }

  // ---- how many requests get through ----

  /** Let through in the `length` time units from `from` on. */
  function During(from: int, length: int): Pass -> bool {
    (p: Pass) => from <= p.at < from + length
  }

  lemma {:induction false} StartsGrow(c: Config, starts: seq<int>, now: int, g: nat, h: nat)
    requires Usable(c) && Spaced(c, starts, now) && g < h < |starts|
    ensures starts[g] + Gap(c) <= starts[h]
  {
    if g < h - 1 {
      StartsGrow(c, starts, now, g, h - 1);
    }
  }

  /** When three attempt windows cannot all let a request through within one window length. A limit of one
      lets only the first request of an attempt window through, so there half the window is enough. */
  predicate LongEnough(c: Config) {
    || c.maxAttempts <= 0
    || (c.maxAttempts == 1 && 2 * c.lockout >= c.window)
    || (c.maxAttempts >= 2 && c.lockout >= c.window - 1)
  }

  /** Requests two attempt windows apart are at least a window length apart. */
  lemma TwoWindowsApart(c: Config, who: Who, s: State, p: Pass, q: Pass)
    requires Usable(c) && LongEnough(c) && Spaced(c, s.starts, s.now)
    requires PassInv(c, s, p) && PassInv(c, s, q) && p.gen + 2 <= q.gen
    ensures p.at + c.window <= q.at
  {
    StartsGrow(c, s.starts, s.now, p.gen, p.gen + 1);
    StartsGrow(c, s.starts, s.now, p.gen + 1, q.gen);
  }

  lemma AtMostTwoWindows(c: Config, who: Who, s: State, from: int)
    requires Usable(c) && LongEnough(c) && Inv(c, who, s)
    ensures CountWhere(s.passes, During(from, c.window)) <= 2 * Max(c.maxAttempts, 0)
  {
    if forall i :: 0 <= i < |s.passes| ==> !During(from, c.window)(s.passes[i]) {
      CountNone(s.passes, During(from, c.window));
    } else {
      var i := FirstDuring(s.passes, from, c.window);
      var g := s.passes[i].gen;
      forall j | 0 <= j < |s.passes| && During(from, c.window)(s.passes[j])
        ensures InWindow(g)(s.passes[j]) || InWindow(g + 1)(s.passes[j])
      {
        assert PassInv(c, s, s.passes[i]) && PassInv(c, s, s.passes[j]);
        assert i < j ==> s.passes[i].gen <= s.passes[j].gen;
        if g + 2 <= s.passes[j].gen {
          TwoWindowsApart(c, who, s, s.passes[i], s.passes[j]);
        }
      }
      CountCover(s.passes, During(from, c.window), InWindow(g), InWindow(g + 1));
      assert PassesIn(s, g) <= Max(c.maxAttempts, 0) && PassesIn(s, g + 1) <= Max(c.maxAttempts, 0);
    }
  }

  lemma FirstDuring(passes: seq<Pass>, from: int, length: int) returns (i: nat)
    requires exists j :: 0 <= j < |passes| && During(from, length)(passes[j])
    ensures i < |passes| && During(from, length)(passes[i])
    ensures forall j :: 0 <= j < i ==> !During(from, length)(passes[j])
  {
    i := 0;
    while !During(from, length)(passes[i])
      invariant i < |passes| && forall j :: 0 <= j < i ==> !During(from, length)(passes[j])
      decreases |passes| - i
    {
      i := i + 1;
    }
  }

  /** While a lockout lives nothing of its client passes, whatever requests and resets arrive. */
  lemma {:induction false} NothingPassesWhileLocked(c: Config, who: Who, s: State, events: seq<Event>, until: int)
    requires Lockout(who) in s.store && s.store[Lockout(who)].expireAt == Some(until)
    ensures var t := Run(c, who, s, events);
      && s.now <= t.now
      && (t.now < until ==>
            && t.passes == s.passes
            && Lockout(who) in t.store && t.store[Lockout(who)].expireAt == Some(until))
  {
    if events != [] {
      NothingPassesWhileLocked(c, who, s, events[..|events| - 1], until);
    }
  }

  // ---- the bound is kept exactly when the lockout is no shorter than the window ----

  ghost predicate Reachable(c: Config, who: Who, s: State) {
    exists events :: NoReset(who, events) && Run(c, who, Init(0), events) == s
  }

  lemma ReachRequest(c: Config, who: Who, s: State, wait: nat)
    requires Reachable(c, who, s)
    ensures Reachable(c, who, Step(c, who, s, Request(wait, who)))
  {
    hide Step;
    var events :| NoReset(who, events) && Run(c, who, Init(0), events) == s;
    var more := events + [Request(wait, who)];
    TakeOfAppend(events, Request(wait, who));
    assert NoReset(who, more);
    assert Run(c, who, Init(0), more) == Step(c, who, s, Request(wait, who));
  }

  /** A live window with `n` attempts and no lockout. */
  predicate Standing(c: Config, who: Who, s: State, n: int, deadline: int) {
    && s.starts != [] && s.now < deadline && !Exists(s.store, Lockout(who), s.now)
    && Attempts(who) in s.store && s.store[Attempts(who)] == Cell(n, Some(deadline))
  }

  lemma OpenWindow(c: Config, who: Who, s: State, wait: nat) returns (t: State)
    requires Usable(c) && c.maxAttempts >= 1 && Opens(s, who, s.now + wait) && Reachable(c, who, s)
    ensures Reachable(c, who, t) && t.now == s.now + wait && Standing(c, who, t, 1, t.now + c.window)
    ensures t.passes == s.passes + [Pass(t.now, |t.starts| - 1)]
  {
    t := Step(c, who, s, Request(wait, who));
    ReachRequest(c, who, s, wait);
  }

  lemma UseWindow(c: Config, who: Who, s: State, wait: nat, n: nat, deadline: int) returns (t: State)
    requires Standing(c, who, s, n, deadline) && 1 <= n < c.maxAttempts && s.now + wait < deadline
      && Reachable(c, who, s)
    ensures Reachable(c, who, t) && t.now == s.now + wait && Standing(c, who, t, n + 1, deadline)
    ensures exists gen :: t.passes == s.passes + [Pass(t.now, gen)]
  {
    t := Step(c, who, s, Request(wait, who));
    ReachRequest(c, who, s, wait);
    assert t.passes == s.passes + [Pass(t.now, |t.starts| - 1)];
  }

  lemma {:induction false} FillWindow(c: Config, who: Who, s: State, n: nat, deadline: int, from: int)
      returns (t: State)
    requires Standing(c, who, s, n, deadline) && 1 <= n <= c.maxAttempts && Reachable(c, who, s)
      && from <= s.now < from + c.window
    ensures Reachable(c, who, t) && t.now == s.now && Standing(c, who, t, c.maxAttempts, deadline)
    ensures CountWhere(t.passes, During(from, c.window))
      == CountWhere(s.passes, During(from, c.window)) + c.maxAttempts - n
    decreases c.maxAttempts - n
  {
    hide Standing, Reachable;
    if n == c.maxAttempts {
      t := s;
    } else {
      var u := UseOne(c, who, s, n, deadline, from);
      t := FillWindow(c, who, u, n + 1, deadline, from);
    }
  }

  lemma UseOne(c: Config, who: Who, s: State, n: nat, deadline: int, from: int) returns (t: State)
    requires Standing(c, who, s, n, deadline) && 1 <= n < c.maxAttempts && Reachable(c, who, s)
      && from <= s.now < from + c.window
    ensures Reachable(c, who, t) && t.now == s.now && Standing(c, who, t, n + 1, deadline)
    ensures CountWhere(t.passes, During(from, c.window)) == CountWhere(s.passes, During(from, c.window)) + 1
  {
    hide Reachable;
    t := UseWindow(c, who, s, 0, n, deadline);
    var gen :| t.passes == s.passes + [Pass(t.now, gen)];
    TakeOfAppend(s.passes, Pass(t.now, gen));
  }

  lemma OpenAndFill(c: Config, who: Who, s: State, wait: nat, from: int) returns (t: State)
    requires Usable(c) && c.maxAttempts >= 1 && Opens(s, who, s.now + wait) && Reachable(c, who, s)
    requires from <= s.now + wait < from + c.window
    ensures Reachable(c, who, t) && t.now == s.now + wait && Standing(c, who, t, c.maxAttempts, t.now + c.window)
    ensures CountWhere(t.passes, During(from, c.window)) == CountWhere(s.passes, During(from, c.window)) + c.maxAttempts
  {
    hide Reachable, Opens, Standing;
    var u := OpenWindow(c, who, s, wait);
    TakeOfAppend(s.passes, Pass(u.now, |u.starts| - 1));
    t := FillWindow(c, who, u, 1, u.now + c.window, from);
  }

  lemma LockWindow(c: Config, who: Who, s: State, deadline: int) returns (t: State)
    requires Usable(c) && Standing(c, who, s, c.maxAttempts, deadline) && c.maxAttempts >= 0 && Reachable(c, who, s)
    ensures Reachable(c, who, t) && t.now == s.now && t.passes == s.passes && Opens(t, who, t.now + c.lockout)
  {
    t := Step(c, who, s, Request(0, who));
    ReachRequest(c, who, s, 0);
  }

  lemma Expires(c: Config, who: Who, s: State, n: int, deadline: int)
    requires Standing(c, who, s, n, deadline)
    ensures Opens(s, who, deadline)
  {
  }

  /** With a shorter lockout: the end of one attempt window, all of a second and all of a third, with the
      lockout in between, fit into one window length. */
  lemma ShortLockoutLetsMoreThrough(c: Config, who: Who) returns (events: seq<Event>, from: int)
    requires Usable(c) && c.maxAttempts >= 2 && c.lockout < c.window - 1
    ensures NoReset(who, events)
    ensures CountWhere(Run(c, who, Init(0), events).passes, During(from, c.window)) == 3 * c.maxAttempts - 1
  {
    hide Standing, Opens, Step, Run;
    from := c.window - 1;
    var s0 := Init(0);
    StartReachable(c, who);
    var s1 := OpenWindow(c, who, s0, 0);
    var s2 := UseWindow(c, who, s1, c.window - 1, 1, c.window);
    OneBefore(s1, s2, c, from);
    var s3 := FillWindow(c, who, s2, 2, c.window, from);
    Expires(c, who, s3, c.maxAttempts, c.window);
    var s4 := OpenAndFill(c, who, s3, 1, from);
    var s5 := LockWindow(c, who, s4, s4.now + c.window);
    var s6 := OpenAndFill(c, who, s5, c.lockout, from);
    events :| NoReset(who, events) && Run(c, who, Init(0), events) == s6;
  }

  /** With a limit of one and a lockout shorter than half the window: three attempt windows, each with its
      one request. */
  lemma ShortLockoutWithLimitOne(c: Config, who: Who) returns (events: seq<Event>)
    requires Usable(c) && c.maxAttempts == 1 && 2 * c.lockout < c.window
    ensures NoReset(who, events)
    ensures CountWhere(Run(c, who, Init(0), events).passes, During(0, c.window)) == 3
  {
    hide Standing, Opens, Step, Run;
    StartReachable(c, who);
    var s1 := OpenAndFill(c, who, Init(0), 0, 0);
    var s2 := LockWindow(c, who, s1, s1.now + c.window);
    var s3 := OpenAndFill(c, who, s2, c.lockout, 0);
    var s4 := LockWindow(c, who, s3, s3.now + c.window);
    var s5 := OpenAndFill(c, who, s4, c.lockout, 0);
    events :| NoReset(who, events) && Run(c, who, Init(0), events) == s5;
  }

  lemma StartReachable(c: Config, who: Who)
    ensures Reachable(c, who, Init(0)) && Opens(Init(0), who, 0)
  {
    assert NoReset(who, []) && Run(c, who, Init(0), []) == Init(0);
  }

  lemma OneBefore(s1: State, s2: State, c: Config, from: int)
    requires s1.now == 0 && |s1.passes| == 1 && s1.passes[0].at == 0 && from == c.window - 1 >= 1 && s2.now == from
    requires exists gen :: s2.passes == s1.passes + [Pass(s2.now, gen)]
    ensures CountWhere(s2.passes, During(from, c.window)) == 1
  {
    var gen :| s2.passes == s1.passes + [Pass(s2.now, gen)];
    TakeOfAppend(s1.passes, Pass(s2.now, gen));
    CountNone(s1.passes, During(from, c.window));
  }

  /** In every run without a reset of its own each client gets at most `2 * maxAttempts` requests through
      in any window length, if the lockout is long enough. */
  lemma TwiceMaxAttempts(c: Config, who: Who, now: int, events: seq<Event>, from: int)
    requires Usable(c) && LongEnough(c) && NoReset(who, events)
    ensures CountWhere(Run(c, who, Init(now), events).passes, During(from, c.window)) <= 2 * Max(c.maxAttempts, 0)
  {
    hide Run, Inv, LongEnough;
    RunKeepsInv(c, who, now, events);
    AtMostTwoWindows(c, who, Run(c, who, Init(now), events), from);
  }

  ghost predicate NeverMoreThanTwice(c: Config, who: Who) {
    forall now, events, from :: NoReset(who, events) ==>
      CountWhere(Run(c, who, Init(now), events).passes, During(from, c.window)) <= 2 * Max(c.maxAttempts, 0)
  }

  /** The exact condition, for every limit: the bound holds in all runs if and only if the lockout is at
      least as long as the window (less one clock unit), or as half of it when the limit is one. */
  lemma TwiceMaxAttemptsIff(c: Config, who: Who)
    requires Usable(c)
    ensures NeverMoreThanTwice(c, who) <==>
      c.maxAttempts <= 0 || (if c.maxAttempts == 1 then 2 * c.lockout >= c.window else c.lockout >= c.window - 1)
  {
    if LongEnough(c) {
      forall now, events, from | NoReset(who, events)
        ensures CountWhere(Run(c, who, Init(now), events).passes, During(from, c.window)) <= 2 * Max(c.maxAttempts, 0)
      {
        TwiceMaxAttempts(c, who, now, events, from);
      }
    } else if c.maxAttempts == 1 {
      var events := ShortLockoutWithLimitOne(c, who);
    } else {
      var events, from := ShortLockoutLetsMoreThrough(c, who);
    }
  }
}
