/** One-time codes: stored with an expiry, compared with guesses, deleted on success or after too many
    wrong guesses. Calls are handled one at a time; times are integers in any unit. */
module Otp {
  import opened Common
  import opened Redis

  type Phone = string

  datatype Key = Code(phone: Phone) | Attempts(phone: Phone) | Lockout(phone: Phone)

  type Store = map<Key, Cell>

  /** `hash` is the keyed hash of a code; nothing is assumed about it, not even that it is injective. */
  datatype Config = Config(ttl: int, lockoutTtl: int, maxAttempts: int, hash: string -> int)

  datatype Verdict = AccountLocked | NotFound | Wrong(locks: bool) | Accepted

  predicate Usable(c: Config) { c.ttl >= 1 && c.lockoutTtl >= 1 }

  function Stored(c: Config, store: Store, phone: Phone, code: string, now: int): Store {
    Set(Set(store, Code(phone), c.hash(code), now, c.ttl), Attempts(phone), 0, now, c.ttl)
  }

  function Verified(c: Config, store: Store, phone: Phone, code: string, now: int): (Store, Verdict) {
    if Exists(store, Lockout(phone), now) then (store, AccountLocked)
    else
      match Get(store, Code(phone), now)
      case None => (store, NotFound)
      case Some(hash) =>
        if c.hash(code) == hash then (Del(Del(store, Code(phone)), Attempts(phone)), Accepted)
        else
          var counted := Incr(store, Attempts(phone), now);
          if counted[Attempts(phone)].value >= c.maxAttempts
          then (Del(Set(counted, Lockout(phone), 1, now, c.lockoutTtl), Code(phone)), Wrong(true))
          else (counted, Wrong(false))
  }

  class OTPService {
    var store: Store
    const c: Config

    constructor (c: Config)
      ensures store == map[] && this.c == c
    {
      this.c := c;
      store := map[];
    }

    /** The new code replaces the old one with a full lifetime and no attempts against it; a lockout and
        every other phone's keys stay as they are. */
    method StoreCode(phone: Phone, code: string, now: int)
      modifies this
      ensures Code(phone) in store && store[Code(phone)] == Cell(c.hash(code), Some(now + c.ttl))
      ensures Attempts(phone) in store && store[Attempts(phone)] == Cell(0, Some(now + c.ttl))
      ensures forall k: Key :: k != Code(phone) && k != Attempts(phone) ==>
        (k in store <==> k in old(store)) && (k in store ==> store[k] == old(store)[k])
      ensures store == Stored(c, old(store), phone, code, now)
    {
      store := Set(store, Code(phone), c.hash(code), now, c.ttl);
      store := Set(store, Attempts(phone), 0, now, c.ttl);
    }

    method VerifyCode(phone: Phone, code: string, now: int) returns (v: Verdict)
      modifies this
      ensures (store, v) == Verified(c, old(store), phone, code, now)
    {
      if Exists(store, Lockout(phone), now) {
        return AccountLocked;
      }
      var stored := Get(store, Code(phone), now);
      if stored.None? {
        return NotFound;
      }
      if c.hash(code) != stored.value {
        store := Incr(store, Attempts(phone), now);
        if store[Attempts(phone)].value >= c.maxAttempts {
          store := Set(store, Lockout(phone), 1, now, c.lockoutTtl);
          store := Del(store, Code(phone));
          return Wrong(true);
        }
        return Wrong(false);
      }
      store := Del(store, Code(phone));
      store := Del(store, Attempts(phone));
      return Accepted;
    }
  }

  // ---- whole runs, watching one phone ----

  datatype Event = Store(wait: nat, phone: Phone, code: string) | Verify(wait: nat, phone: Phone, code: string)

  /** A guess that was compared with a stored code; `gen` numbers the codes stored for the phone. */
  datatype Guess = Guess(gen: nat, right: bool)

  datatype Issue = Issue(hash: int, at: int)

  /** The history of the watched phone: codes stored, guesses compared, and when it was last locked. */
  datatype State = State(now: int, store: map<Key, Cell>, issues: seq<Issue>, guesses: seq<Guess>,
                         lockedAt: Option<int>)

  function Init(now: int): State { State(now, map[], [], [], None) }

  function Step(c: Config, phone: Phone, s: State, e: Event): State {
    var now := s.now + e.wait;
    match e
    case Store(_, other, code) =>
      s.(now := now, store := Stored(c, s.store, other, code, now),
         issues := if other == phone then s.issues + [Issue(c.hash(code), now)] else s.issues)
    case Verify(_, other, code) =>
      var (store, v) := Verified(c, s.store, other, code, now);
      var mine := other == phone;
      State(now, store, s.issues,
            if mine && (v.Wrong? || v.Accepted?) && s.issues != []
            then s.guesses + [Guess(|s.issues| - 1, v.Accepted?)] else s.guesses,
            if mine && v == Wrong(true) then Some(now) else s.lockedAt)
  }

  function Run(c: Config, phone: Phone, s: State, events: seq<Event>): State {
    if events == [] then s else Step(c, phone, Run(c, phone, s, events[..|events| - 1]), events[|events| - 1])
  }

  function IsGuess(gen: nat, right: bool): Guess -> bool {
    (g: Guess) => g == Guess(gen, right)
  }

  /** Wrong and right guesses a stored code has been compared with. */
  function WrongOn(s: State, gen: nat): nat { CountWhere(s.guesses, IsGuess(gen, false)) }

  function RightOn(s: State, gen: nat): nat { CountWhere(s.guesses, IsGuess(gen, true)) }

  function Allowed(c: Config): int { Max(c.maxAttempts, 1) }

  /** The latest code was neither guessed nor guessed at too often. */
  predicate Unspent(c: Config, s: State) {
    s.issues != [] && RightOn(s, |s.issues| - 1) == 0 && WrongOn(s, |s.issues| - 1) < Allowed(c)
  }

  predicate GuessesBounded(c: Config, s: State, gen: nat) {
    RightOn(s, gen) <= 1 && RightOn(s, gen) + WrongOn(s, gen) <= Allowed(c)
  }

  /** The code is kept exactly while it is unspent, beside the exact number of wrong guesses; both expire
      together. */
  predicate CodeInv(c: Config, phone: Phone, s: State) {
    && (Code(phone) in s.store <==> Unspent(c, s))
    && (Code(phone) in s.store ==>
          var last := s.issues[|s.issues| - 1];
          && s.store[Code(phone)] == Cell(last.hash, Some(last.at + c.ttl))
          && Attempts(phone) in s.store
          && s.store[Attempts(phone)] == Cell(WrongOn(s, |s.issues| - 1), Some(last.at + c.ttl)))
  }

  predicate LockInv(c: Config, phone: Phone, s: State) {
    if s.lockedAt.None? then Lockout(phone) !in s.store
    else Lockout(phone) in s.store && s.store[Lockout(phone)].expireAt == Some(s.lockedAt.value + c.lockoutTtl)
  }

  ghost predicate Inv(c: Config, phone: Phone, s: State) {
    && (forall i :: 0 <= i < |s.guesses| ==> s.guesses[i].gen < |s.issues|)
    && (forall gen: nat :: GuessesBounded(c, s, gen))
    && CodeInv(c, phone, s) && LockInv(c, phone, s)
  }

  lemma OthersKeepInv(c: Config, phone: Phone, s: State, t: State)
    requires Inv(c, phone, s) && t.issues == s.issues && t.guesses == s.guesses && t.lockedAt == s.lockedAt
    requires forall k: Key :: k.phone == phone ==>
      (k in t.store <==> k in s.store) && (k in s.store ==> t.store[k] == s.store[k])
    ensures Inv(c, phone, t)
  {
    assert Code(phone).phone == phone && Attempts(phone).phone == phone && Lockout(phone).phone == phone;
    forall gen: nat ensures GuessesBounded(c, t, gen) {
      assert GuessesBounded(c, s, gen);
    }
  }

  lemma StoreKeepsInv(c: Config, phone: Phone, s: State, wait: nat, code: string)
    requires Inv(c, phone, s)
    ensures Inv(c, phone, Step(c, phone, s, Store(wait, phone, code)))
  {
    var t := Step(c, phone, s, Store(wait, phone, code));
    CountNone(t.guesses, IsGuess(|s.issues|, true));
    CountNone(t.guesses, IsGuess(|s.issues|, false));
    forall gen: nat ensures GuessesBounded(c, t, gen) {
      assert GuessesBounded(c, s, gen);
    }
  }

  /** A comparison adds one guess to the latest code. */
  lemma GuessAdds(s: State, t: State, right: bool)
    requires s.issues != [] && t.guesses == s.guesses + [Guess(|s.issues| - 1, right)]
    ensures forall gen: nat :: RightOn(t, gen) == RightOn(s, gen) + Bit(right && gen == |s.issues| - 1)
    ensures forall gen: nat :: WrongOn(t, gen) == WrongOn(s, gen) + Bit(!right && gen == |s.issues| - 1)
  {
    TakeOfAppend(s.guesses, Guess(|s.issues| - 1, right));
  }

  lemma CompareKeepsInv(c: Config, phone: Phone, s: State, wait: nat, code: string)
    requires Usable(c) && Inv(c, phone, s)
    requires !Exists(s.store, Lockout(phone), s.now + wait) && Exists(s.store, Code(phone), s.now + wait)
    ensures Inv(c, phone, Step(c, phone, s, Verify(wait, phone, code)))
  {
    hide RightOn, WrongOn;
    var t := Step(c, phone, s, Verify(wait, phone, code));
    var right := c.hash(code) == s.store[Code(phone)].value;
    assert t.guesses == s.guesses + [Guess(|s.issues| - 1, right)];
    GuessAdds(s, t, right);
    forall gen: nat ensures GuessesBounded(c, t, gen) {
      assert GuessesBounded(c, s, gen);
    }
  }

  lemma StepKeepsInv(c: Config, phone: Phone, s: State, e: Event)
    requires Usable(c) && Inv(c, phone, s)
    ensures Inv(c, phone, Step(c, phone, s, e))
  {
    hide Inv;
    if e.phone != phone {
      OthersKeepInv(c, phone, s, Step(c, phone, s, e));
    } else if e.Store? {
      StoreKeepsInv(c, phone, s, e.wait, e.code);
    } else if Exists(s.store, Lockout(phone), s.now + e.wait) || !Exists(s.store, Code(phone), s.now + e.wait) {
      OthersKeepInv(c, phone, s, Step(c, phone, s, e));
    } else {
      CompareKeepsInv(c, phone, s, e.wait, e.code);
    }
  }

  lemma {:induction false} RunKeepsInv(c: Config, phone: Phone, now: int, events: seq<Event>)
    requires Usable(c)
    ensures Inv(c, phone, Run(c, phone, Init(now), events))
  {
    if events != [] {
      hide Inv, Step;
      RunKeepsInv(c, phone, now, events[..|events| - 1]);
      StepKeepsInv(c, phone, Run(c, phone, Init(now), events[..|events| - 1]), events[|events| - 1]);
    }
  }

  /** Each stored code is compared with at most `maxAttempts` guesses (one, if the limit is below one) and
      accepted at most once. */
  lemma EachCodeIsGuessedFewTimes(c: Config, phone: Phone, now: int, events: seq<Event>, gen: nat)
    requires Usable(c)
    ensures var s := Run(c, phone, Init(now), events);
      RightOn(s, gen) <= 1 && RightOn(s, gen) + WrongOn(s, gen) <= Max(c.maxAttempts, 1)
  {
    hide Run;
    RunKeepsInv(c, phone, now, events);
    assert GuessesBounded(c, Run(c, phone, Init(now), events), gen);
  }

  predicate Locked(c: Config, s: State, now: int) {
    s.lockedAt.Some? && now < s.lockedAt.value + c.lockoutTtl
  }

  /** After any history a guess is accepted exactly when the phone is not locked, the latest code is
      unexpired, was not accepted before and has been guessed wrong fewer than `maxAttempts` times, and
      the hashes agree. */
  lemma {:induction false} AcceptedIff(c: Config, phone: Phone, now: int, events: seq<Event>, wait: nat, code: string)
    requires Usable(c)
    ensures var s := Run(c, phone, Init(now), events); var at := s.now + wait;
      Verified(c, s.store, phone, code, at).1 == Accepted <==>
        && !Locked(c, s, at)
        && Unspent(c, s)
        && at < s.issues[|s.issues| - 1].at + c.ttl
        && c.hash(code) == s.issues[|s.issues| - 1].hash
  {
    hide Run, RightOn, WrongOn;
    RunKeepsInv(c, phone, now, events);
  }

  /** Every verdict, from the history alone: locked out; no code left to compare with, because none was stored,
      it expired, was accepted or was guessed at too often; right; wrong, with or without the last chance. */
  lemma VerdictFollowsHistory(c: Config, phone: Phone, now: int, events: seq<Event>, wait: nat, code: string)
    requires Usable(c)
    ensures var s := Run(c, phone, Init(now), events); var at := s.now + wait;
      Verified(c, s.store, phone, code, at).1 ==
        if Locked(c, s, at) then AccountLocked
        else if !Unspent(c, s) || s.issues[|s.issues| - 1].at + c.ttl <= at then NotFound
        else if c.hash(code) == s.issues[|s.issues| - 1].hash then Accepted
        else Wrong(WrongOn(s, |s.issues| - 1) + 1 >= c.maxAttempts)
  {
    hide Run, RightOn, WrongOn;
    RunKeepsInv(c, phone, now, events);
  }

  /** A guess is what locks the phone exactly when it is the last wrong one the code allows. */
  lemma LocksIff(c: Config, phone: Phone, now: int, events: seq<Event>, wait: nat, code: string)
    requires Usable(c)
    ensures var s := Run(c, phone, Init(now), events); var at := s.now + wait;
      Verified(c, s.store, phone, code, at).1 == Wrong(true) <==>
        && !Locked(c, s, at)
        && Unspent(c, s) && WrongOn(s, |s.issues| - 1) == Allowed(c) - 1
        && at < s.issues[|s.issues| - 1].at + c.ttl
        && c.hash(code) != s.issues[|s.issues| - 1].hash
  {
    hide Run, RightOn, WrongOn;
    RunKeepsInv(c, phone, now, events);
  }

  /** While a lockout lives no guess is even compared, whatever new codes are stored. */
  lemma {:induction false} NothingComparedWhileLocked(c: Config, phone: Phone, s: State, events: seq<Event>, until: int)
    requires Lockout(phone) in s.store && s.store[Lockout(phone)].expireAt == Some(until)
    ensures var t := Run(c, phone, s, events);
      && s.now <= t.now
      && (t.now < until ==>
            && t.guesses == s.guesses
            && Lockout(phone) in t.store && t.store[Lockout(phone)].expireAt == Some(until))
  {
    if events != [] {
      NothingComparedWhileLocked(c, phone, s, events[..|events| - 1], until);
    }
  }
}
