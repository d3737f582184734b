/** Verifications of one phone's codes interleaving at the grain of single server commands. Storing a code
    is one step; a verification looks the lockout up, fetches the code, and then counts, locks and deletes
    in steps of its own. */
module OtpRuns {
  import opened Common
  import opened Redis
  import opened Otp

  /** Where a verification stands; `gen` is the number of the code it fetched. */
  datatype Worker =
    | Idle
    | LookedUp(guess: string)
    | Mistaken(gen: nat)
    | Locking(gen: nat)
    | Burning(gen: nat)
    | Right(gen: nat)
    | Clearing(gen: nat)

  datatype Move = Attempt(guess: string) | Next

  datatype Action = Tick(seconds: nat) | StoreNew(code: string) | Act(w: nat, move: Move)

  /** `issued` codes were stored so far. Of the current code's wrong guesses that were counted below the
      limit, `used` were counted since the attempt counter was last deleted and `spent` before. */
  datatype Floor = Floor(now: nat, store: Store, issued: nat, guesses: seq<Guess>, workers: seq<Worker>,
                         used: nat, spent: nat)

  function Init(n: nat): Floor {
    Floor(0, map[], 0, [], seq(n, _ => Idle), 0, 0)
  }

  function Become(s: Floor, w: nat, worker: Worker): Floor
    requires w < |s.workers|
  {
    s.(workers := s.workers[w := worker])
  }

  function DoFetch(c: Config, phone: Phone, s: Floor, w: nat, guess: string): Floor
    requires w < |s.workers|
  {
    match Get(s.store, Code(phone), s.now)
    case None => Become(s, w, Idle)
    case Some(hash) =>
      if s.issued == 0 then s
      else
        var gen, right := s.issued - 1, c.hash(guess) == hash;
        Become(s.(guesses := s.guesses + [Guess(gen, right)]), w, if right then Right(gen) else Mistaken(gen))
  }

  function DoCount(c: Config, phone: Phone, s: Floor, w: nat, gen: nat): Floor
    requires w < |s.workers|
  {
    var counted := Incr(s.store, Attempts(phone), s.now);
    var below := counted[Attempts(phone)].value < c.maxAttempts;
    Become(s.(store := counted, used := if below && gen + 1 == s.issued then s.used + 1 else s.used), w,
           if below then Idle else Locking(gen))
  }

  function DoNext(c: Config, phone: Phone, s: Floor, w: nat): Floor
    requires w < |s.workers|
  {
    match s.workers[w]
    case Idle => s
    case LookedUp(guess) => DoFetch(c, phone, s, w, guess)
    case Mistaken(gen) => DoCount(c, phone, s, w, gen)
    case Locking(gen) => Become(s.(store := Set(s.store, Lockout(phone), 1, s.now, c.lockoutTtl)), w, Burning(gen))
    case Burning(gen) => Become(s.(store := Del(s.store, Code(phone))), w, Idle)
    case Right(gen) => Become(s.(store := Del(s.store, Code(phone))), w, Clearing(gen))
    case Clearing(gen) =>
      Become(s.(store := Del(s.store, Attempts(phone)), used := 0, spent := s.spent + s.used), w, Idle)
  }

  function Step(c: Config, phone: Phone, s: Floor, a: Action): Floor {
    match a
    case Tick(d) => s.(now := s.now + d)
    case StoreNew(code) =>
      s.(store := Stored(c, s.store, phone, code, s.now), issued := s.issued + 1, used := 0, spent := 0)
    case Act(w, move) =>
      if w >= |s.workers| then s
      else
        match (s.workers[w], move)
        case (Idle, Attempt(guess)) =>
          if Exists(s.store, Lockout(phone), s.now) then s else Become(s, w, LookedUp(guess))
        case (_, Next) => DoNext(c, phone, s, w)
        case _ => s
  }

  function Run(c: Config, phone: Phone, s: Floor, acts: seq<Action>): Floor {
    if acts == [] then s else Step(c, phone, Run(c, phone, s, acts[..|acts| - 1]), acts[|acts| - 1])
  }

  /** A whole verification by one worker while nothing else moves; a step too many changes nothing. */
  function Undisturbed(c: Config, phone: Phone, s: Floor, w: nat, guess: string): Floor {
    var next := Act(w, Next);
    var fetched := Step(c, phone, Step(c, phone, s, Act(w, Attempt(guess))), next);
    Step(c, phone, Step(c, phone, Step(c, phone, fetched, next), next), next)
  }

  /** It does what a call of the object does, and records the guess exactly when the call compared it. */
  lemma UndisturbedIsVerified(c: Config, phone: Phone, s: Floor, w: nat, guess: string)
    requires w < |s.workers| && s.workers[w] == Idle && (Code(phone) in s.store ==> s.issued > 0)
    ensures var t := Undisturbed(c, phone, s, w, guess);
      var (store, verdict) := Verified(c, s.store, phone, guess, s.now);
      && t.store == store && t.now == s.now && t.workers == s.workers
      && t.guesses == s.guesses + (match verdict
                                   case Accepted => [Guess(s.issued - 1, true)]
                                   case Wrong(_) => [Guess(s.issued - 1, false)]
                                   case _ => [])
  {
    hide Incr, Set, Del, Get;
    if !Exists(s.store, Lockout(phone), s.now) {
      AfterLookup(c, phone, Become(s, w, LookedUp(guess)), w, guess);
      assert s.workers[w := LookedUp(guess)][w := Idle] == s.workers;
    }
  }

  lemma AfterLookup(c: Config, phone: Phone, s: Floor, w: nat, guess: string)
    requires w < |s.workers| && s.workers[w] == LookedUp(guess) && (Code(phone) in s.store ==> s.issued > 0)
    requires !Exists(s.store, Lockout(phone), s.now)
    ensures var next := Act(w, Next);
      var t := Step(c, phone, Step(c, phone, Step(c, phone, Step(c, phone, s, next), next), next), next);
      var (store, verdict) := Verified(c, s.store, phone, guess, s.now);
      && t.store == store && t.now == s.now && t.workers == s.workers[w := Idle]
      && t.guesses == s.guesses + (match verdict
                                   case Accepted => [Guess(s.issued - 1, true)]
                                   case Wrong(_) => [Guess(s.issued - 1, false)]
                                   case _ => [])
  {
    hide Set, Del;
  }

  // ---- the potential argument ----

  function OnCode(gen: nat): Guess -> bool {
    (g: Guess) => g.gen == gen
  }

  function RightOnCode(gen: nat): Guess -> bool {
    (g: Guess) => g.gen == gen && g.right
  }

  function Compared(s: Floor, gen: nat): nat { CountWhere(s.guesses, OnCode(gen)) }

  function AcceptedOf(s: Floor, gen: nat): nat { CountWhere(s.guesses, RightOnCode(gen)) }

  /** The verification has compared the current code and neither counted its guess below the limit nor
      deleted the code. */
  function BusyOn(issued: nat): Worker -> bool {
    (w: Worker) => (w.Mistaken? || w.Locking? || w.Burning? || w.Right?) && w.gen + 1 == issued
  }

  /** A right guess at an earlier code, still about to delete the attempt counter. */
  function StaleTo(issued: nat): Worker -> bool {
    (w: Worker) => (w.Right? || w.Clearing?) && w.gen + 1 < issued
  }

  function HoldsRight(gen: nat): Worker -> bool {
    (w: Worker) => w == Right(gen)
  }

  function Busy(s: Floor): nat { CountWhere(s.workers, BusyOn(s.issued)) }

  function Stale(s: Floor): nat { CountWhere(s.workers, StaleTo(s.issued)) }

  predicate Alive(phone: Phone, s: Floor) {
    s.issued > 0 && Exists(s.store, Code(phone), s.now)
  }

  /** While the current code is alive: its guesses are those counted and those under way; the counter is at
      least the number counted since it was last deleted and does not expire before the code. */
  predicate AliveInv(c: Config, phone: Phone, s: Floor)
    requires Alive(phone, s)
  {
    var n, m := |s.workers|, Allowed(c);
    && Compared(s, s.issued - 1) == s.spent + s.used + Busy(s)
    && AcceptedOf(s, s.issued - 1) == CountWhere(s.workers, HoldsRight(s.issued - 1))
    && s.used <= m - 1 && s.used <= Count(s.store, Attempts(phone), s.now)
    && s.store[Code(phone)].expireAt.Some?
    && (Attempts(phone) in s.store ==>
          Outlives(s.store[Attempts(phone)], s.store[Code(phone)].expireAt.value))
    && (if Stale(s) >= n then s.used == s.spent == Busy(s) == 0
        else s.spent <= (m - 1) * (n - 1 - Stale(s)))
  }

  predicate Outlives(cell: Cell, t: int) { cell.expireAt.None? || t <= cell.expireAt.value }

  predicate WorkerInv(phone: Phone, s: Floor, w: Worker) {
    && (w.Mistaken? || w.Locking? || w.Burning? || w.Right? || w.Clearing? ==> w.gen < s.issued)
    && (w.Clearing? && w.gen + 1 == s.issued ==> !Alive(phone, s))
  }

  predicate GuessInv(c: Config, s: Floor, gen: nat) {
    && Compared(s, gen) <= |s.workers| * Allowed(c) && AcceptedOf(s, gen) <= |s.workers|
    && (gen >= s.issued ==> Compared(s, gen) == 0 && AcceptedOf(s, gen) == 0)
  }

  ghost predicate Inv(c: Config, phone: Phone, s: Floor) {
    && (forall w :: 0 <= w < |s.workers| ==> WorkerInv(phone, s, s.workers[w]))
    && (forall gen: nat :: GuessInv(c, s, gen))
    && (Alive(phone, s) ==> AliveInv(c, phone, s))
  }

  /** Disjoint kinds of workers are at most all workers. */
  lemma {:induction false} DisjointCounts(ws: seq<Worker>, p: Worker -> bool, q: Worker -> bool)
    requires forall w :: !(p(w) && q(w))
    ensures CountWhere(ws, p) + CountWhere(ws, q) <= |ws|
  {
    if ws != [] {
      DisjointCounts(ws[..|ws| - 1], p, q);
    }
  }

  /** What a change of one worker does to the three counts. */
  lemma CountsAfter(s: Floor, w: nat, worker: Worker)
    requires w < |s.workers| && s.issued > 0
    ensures var t := s.workers[w := worker]; var old_ := s.workers[w];
      && CountWhere(t, BusyOn(s.issued)) + Bit(BusyOn(s.issued)(old_))
         == CountWhere(s.workers, BusyOn(s.issued)) + Bit(BusyOn(s.issued)(worker))
      && CountWhere(t, StaleTo(s.issued)) + Bit(StaleTo(s.issued)(old_))
         == CountWhere(s.workers, StaleTo(s.issued)) + Bit(StaleTo(s.issued)(worker))
      && CountWhere(t, HoldsRight(s.issued - 1)) + Bit(HoldsRight(s.issued - 1)(old_))
         == CountWhere(s.workers, HoldsRight(s.issued - 1)) + Bit(HoldsRight(s.issued - 1)(worker))
  {
    CountUpdate(s.workers, w, worker, BusyOn(s.issued));
    CountUpdate(s.workers, w, worker, StaleTo(s.issued));
    CountUpdate(s.workers, w, worker, HoldsRight(s.issued - 1));
  }

  /** No guess is compared and the code does not come to life. */
  lemma QuietKeepsGuesses(c: Config, s: Floor, t: Floor)
    requires (forall gen: nat :: GuessInv(c, s, gen)) && t.guesses == s.guesses && s.issued <= t.issued
    requires |t.workers| == |s.workers|
    ensures forall gen: nat :: GuessInv(c, t, gen)
  {
    forall gen: nat ensures GuessInv(c, t, gen) {
      assert GuessInv(c, s, gen);
    }
  }

  lemma TickKeepsInv(c: Config, phone: Phone, s: Floor, d: nat)
    requires Inv(c, phone, s)
    ensures Inv(c, phone, s.(now := s.now + d))
  {
    var t := s.(now := s.now + d);
    QuietKeepsGuesses(c, s, t);
    forall w | 0 <= w < |t.workers| ensures WorkerInv(phone, t, t.workers[w]) {
      assert WorkerInv(phone, s, s.workers[w]);
    }
  }

  lemma {:induction false} NobodyBusy(ws: seq<Worker>, issued: nat)
    requires forall w :: 0 <= w < |ws| && !ws[w].Idle? && !ws[w].LookedUp? ==> ws[w].gen < issued
    ensures CountWhere(ws, BusyOn(issued + 1)) == 0 && CountWhere(ws, HoldsRight(issued)) == 0
  {
    CountNone(ws, BusyOn(issued + 1));
    CountNone(ws, HoldsRight(issued));
  }

  lemma StoreKeepsInv(c: Config, phone: Phone, s: Floor, code: string)
    requires Usable(c) && Inv(c, phone, s)
    ensures Inv(c, phone, Step(c, phone, s, StoreNew(code)))
  {
    var t := Step(c, phone, s, StoreNew(code));
    QuietKeepsGuesses(c, s, t);
    forall w | 0 <= w < |t.workers| ensures WorkerInv(phone, t, t.workers[w]) {
      assert WorkerInv(phone, s, s.workers[w]);
    }
    NobodyBusy(s.workers, s.issued);
    assert GuessInv(c, s, s.issued);
    NoLess(Allowed(c) - 1, |s.workers| - 1 - Stale(t));
  }

  lemma NoLess(a: int, b: int)
    requires a >= 0
    ensures b >= 0 ==> a * b >= 0
  {
  }

  /** A worker moves on; the other workers' share of the invariant does not change. */
  lemma WorkersCarryOver(phone: Phone, s: Floor, t: Floor, w: nat)
    requires w < |s.workers| && |t.workers| == |s.workers| && t.workers == s.workers[w := t.workers[w]]
    requires forall v :: 0 <= v < |s.workers| ==> WorkerInv(phone, s, s.workers[v])
    requires t.issued == s.issued && (Alive(phone, t) ==> Alive(phone, s)) && WorkerInv(phone, t, t.workers[w])
    ensures forall v :: 0 <= v < |t.workers| ==> WorkerInv(phone, t, t.workers[v])
  {
    forall v | 0 <= v < |t.workers| ensures WorkerInv(phone, t, t.workers[v]) {
      assert WorkerInv(phone, s, s.workers[v]);
    }
  }

  /** The worker stays of the same kind for all counts, or the code is not alive. */
  lemma SameKindKeepsInv(c: Config, phone: Phone, s: Floor, t: Floor, w: nat)
    requires Inv(c, phone, s) && w < |s.workers| == |t.workers|
    requires t == s.(store := t.store, workers := s.workers[w := t.workers[w]]) && WorkerInv(phone, t, t.workers[w])
    requires Alive(phone, t) ==> Alive(phone, s)
    requires Alive(phone, t) ==>
      && t.store[Code(phone)] == s.store[Code(phone)]
      && (Attempts(phone) in t.store <==> Attempts(phone) in s.store)
      && (Attempts(phone) in s.store ==> t.store[Attempts(phone)] == s.store[Attempts(phone)])
      && BusyOn(s.issued)(t.workers[w]) == BusyOn(s.issued)(s.workers[w])
      && StaleTo(s.issued)(t.workers[w]) == StaleTo(s.issued)(s.workers[w])
      && HoldsRight(s.issued - 1)(t.workers[w]) == HoldsRight(s.issued - 1)(s.workers[w])
    ensures Inv(c, phone, t)
  {
    hide CountWhere, Allowed;
    QuietKeepsGuesses(c, s, t);
    WorkersCarryOver(phone, s, t, w);
    if Alive(phone, t) {
      CountsAfter(s, w, t.workers[w]);
    }
  }

  /** The bound on comparisons while the code is alive. */
  lemma RoomFor(n: nat, m: int, stale: nat, busy: nat, spent: nat, used: nat)
    requires m >= 1 && stale < n && busy + stale <= n && used <= m - 1 && spent <= (m - 1) * (n - 1 - stale)
    ensures spent + used + busy <= n * m
  {
    var k := n - stale;
    assert (m - 1) * (k - 1) + (m - 1) == (m - 1) * k;
    assert (m - 1) * k + k == m * k;
    assert m * k + m * stale == n * m;
  }

  lemma CompareKeepsInv(c: Config, phone: Phone, s: Floor, w: nat, guess: string)
    requires Inv(c, phone, s) && w < |s.workers| && s.workers[w] == LookedUp(guess) && Alive(phone, s)
    ensures Inv(c, phone, DoFetch(c, phone, s, w, guess))
  {
    hide CountWhere;
    var gen, right := s.issued - 1, c.hash(guess) == s.store[Code(phone)].value;
    var t := DoFetch(c, phone, s, w, guess);
    assert t.guesses == s.guesses + [Guess(gen, right)];
    CountsAfter(s, w, t.workers[w]);
    OneMoreGuess(s, t, gen, right);
    DisjointCounts(t.workers, BusyOn(t.issued), StaleTo(t.issued));
    DisjointCounts(t.workers, HoldsRight(gen), NoWorker());
    RoomFor(|s.workers|, Allowed(c), Stale(t), Busy(t), t.spent, t.used);
    forall h: nat ensures GuessInv(c, t, h) {
      assert GuessInv(c, s, h);
    }
    WorkersCarryOver(phone, s, t, w);
  }

  function NoWorker(): Worker -> bool { (w: Worker) => false }

  lemma OneMoreGuess(s: Floor, t: Floor, gen: nat, right: bool)
    requires t.guesses == s.guesses + [Guess(gen, right)]
    ensures forall h: nat :: Compared(t, h) == Compared(s, h) + Bit(h == gen)
    ensures forall h: nat :: AcceptedOf(t, h) == AcceptedOf(s, h) + Bit(h == gen && right)
  {
    TakeOfAppend(s.guesses, Guess(gen, right));
  }

  lemma FetchKeepsInv(c: Config, phone: Phone, s: Floor, w: nat, guess: string)
    requires Inv(c, phone, s) && w < |s.workers| && s.workers[w] == LookedUp(guess)
    ensures Inv(c, phone, DoFetch(c, phone, s, w, guess))
  {
    if Alive(phone, s) {
      CompareKeepsInv(c, phone, s, w, guess);
    } else {
      var t := DoFetch(c, phone, s, w, guess);
      QuietKeepsGuesses(c, s, t);
      WorkersCarryOver(phone, s, t, w);
    }
  }

  lemma CountKeepsInv(c: Config, phone: Phone, s: Floor, w: nat, gen: nat)
    requires Inv(c, phone, s) && w < |s.workers| && s.workers[w] == Mistaken(gen)
    ensures Inv(c, phone, DoCount(c, phone, s, w, gen))
  {
    hide CountWhere;
    var t := DoCount(c, phone, s, w, gen);
    assert WorkerInv(phone, s, s.workers[w]);
    QuietKeepsGuesses(c, s, t);
    WorkersCarryOver(phone, s, t, w);
    if Alive(phone, t) {
      CountsAfter(s, w, t.workers[w]);
      DisjointCounts(s.workers, BusyOn(s.issued), StaleTo(s.issued));
    }
  }

  lemma ClearKeepsInv(c: Config, phone: Phone, s: Floor, w: nat, gen: nat)
    requires Inv(c, phone, s) && w < |s.workers| && s.workers[w] == Clearing(gen)
    ensures Inv(c, phone, DoNext(c, phone, s, w))
  {
    hide CountWhere;
    var t := DoNext(c, phone, s, w);
    assert WorkerInv(phone, s, s.workers[w]);
    QuietKeepsGuesses(c, s, t);
    WorkersCarryOver(phone, s, t, w);
    if Alive(phone, t) {
      CountsAfter(s, w, Idle);
      OneResetMore(Allowed(c) - 1, |s.workers| - 1 - Stale(s));
      DisjointCounts(s.workers, BusyOn(s.issued), StaleTo(s.issued));
    }
  }

  lemma OneResetMore(a: int, b: int)
    ensures a * (b + 1) == a * b + a
    ensures a * 0 == 0
  {
  }

  lemma NextKeepsInv(c: Config, phone: Phone, s: Floor, w: nat)
    requires Inv(c, phone, s) && w < |s.workers|
    ensures Inv(c, phone, DoNext(c, phone, s, w))
  {
    assert WorkerInv(phone, s, s.workers[w]);
    hide Inv, AliveInv;
    var t := DoNext(c, phone, s, w);
    match s.workers[w]
    case Idle =>
    case LookedUp(guess) => FetchKeepsInv(c, phone, s, w, guess);
    case Mistaken(gen) => CountKeepsInv(c, phone, s, w, gen);
    case Clearing(gen) => ClearKeepsInv(c, phone, s, w, gen);
    case _ => SameKindKeepsInv(c, phone, s, t, w);
  }

  lemma StepKeepsInv(c: Config, phone: Phone, s: Floor, a: Action)
    requires Usable(c) && Inv(c, phone, s)
    ensures Inv(c, phone, Step(c, phone, s, a))
  {
    hide Inv, AliveInv, DoNext, Stored;
    match a
    case Tick(d) => TickKeepsInv(c, phone, s, d);
    case StoreNew(code) => StoreKeepsInv(c, phone, s, code);
    case Act(w, move) =>
      if w < |s.workers| && move.Next? {
        NextKeepsInv(c, phone, s, w);
      } else if w < |s.workers| && s.workers[w].Idle? {
        SameKindKeepsInv(c, phone, s, Become(s, w, LookedUp(move.guess)), w);
      }
  }

  lemma {:induction false} RunKeepsInv(c: Config, phone: Phone, n: nat, acts: seq<Action>)
    requires Usable(c)
    ensures Inv(c, phone, Run(c, phone, Init(n), acts)) && |Run(c, phone, Init(n), acts).workers| == n
  {
    if acts == [] {
      NoLess(n, Allowed(c));
      StartInv(c, phone, n);
    } else {
      hide Inv, DoNext, Stored;
      RunKeepsInv(c, phone, n, acts[..|acts| - 1]);
      StepKeepsInv(c, phone, Run(c, phone, Init(n), acts[..|acts| - 1]), acts[|acts| - 1]);
      SameWorkers(c, phone, Run(c, phone, Init(n), acts[..|acts| - 1]), acts[|acts| - 1]);
    }
  }

  lemma StartInv(c: Config, phone: Phone, n: nat)
    requires n * Allowed(c) >= 0
    ensures Inv(c, phone, Init(n))
  {
    forall gen: nat ensures GuessInv(c, Init(n), gen) {
    }
  }

  lemma SameWorkers(c: Config, phone: Phone, s: Floor, a: Action)
    ensures |Step(c, phone, s, a).workers| == |s.workers|
  {
  }

  /** However `n` verifications and the storing of codes interleave, each stored code is compared with at
      most `n * maxAttempts` guesses and accepted at most `n` times. */
  lemma GuessesBoundedByWorkers(c: Config, phone: Phone, n: nat, acts: seq<Action>, gen: nat)
    requires Usable(c)
    ensures var s := Run(c, phone, Init(n), acts);
      Compared(s, gen) <= n * Max(c.maxAttempts, 1) && AcceptedOf(s, gen) <= n
  {
    hide Run;
    RunKeepsInv(c, phone, n, acts);
    assert GuessInv(c, Run(c, phone, Init(n), acts), gen);
  }

  // ---- runs that reach the bounds ----

  ghost predicate Reachable(c: Config, phone: Phone, n: nat, s: Floor) {
    exists acts :: Run(c, phone, Init(n), acts) == s
  }

  lemma ReachStep(c: Config, phone: Phone, n: nat, s: Floor, a: Action)
    requires Reachable(c, phone, n, s)
    ensures Reachable(c, phone, n, Step(c, phone, s, a))
  {
    hide Step;
    var acts :| Run(c, phone, Init(n), acts) == s;
    TakeOfAppend(acts, a);
    assert Run(c, phone, Init(n), acts + [a]) == Step(c, phone, s, a);
  }

  lemma Extract(c: Config, phone: Phone, n: nat, s: Floor) returns (acts: seq<Action>)
    requires Reachable(c, phone, n, s)
    ensures Run(c, phone, Init(n), acts) == s
  {
    acts :| Run(c, phone, Init(n), acts) == s;
  }

  /** At time zero, with a code in place, no lockout, and workers `lo..` standing at `above`, those below
      at `below`. */
  ghost predicate Standing(c: Config, phone: Phone, s: Floor, n: nat, issued: nat, code: string,
                           lo: nat, below: Worker, above: Worker)
  {
    && s.now == 0 && s.issued == issued >= 1 && Lockout(phone) !in s.store
    && Code(phone) in s.store && s.store[Code(phone)] == Cell(c.hash(code), Some(c.ttl))
    && |s.workers| == n && lo <= n
    && forall w :: 0 <= w < n ==> s.workers[w] == if w < lo then below else above
  }

  lemma StoreFirst(c: Config, phone: Phone, n: nat, code: string) returns (s: Floor)
    requires Usable(c)
    ensures Reachable(c, phone, n, s) && Standing(c, phone, s, n, 1, code, 0, Idle, Idle) && s.guesses == []
  {
    assert Run(c, phone, Init(n), []) == Init(n);
    ReachStep(c, phone, n, Init(n), StoreNew(code));
    s := Step(c, phone, Init(n), StoreNew(code));
  }

  /** An idle worker compares a guess with the code. */
  lemma CompareOne(c: Config, phone: Phone, n: nat, s: Floor, issued: nat, code: string, w: nat, guess: string)
    returns (t: Floor)
    requires Usable(c) && Reachable(c, phone, n, s) && w < |s.workers| && s.workers[w] == Idle
    requires s.now == 0 && s.issued == issued >= 1 && Lockout(phone) !in s.store
    requires Code(phone) in s.store && s.store[Code(phone)] == Cell(c.hash(code), Some(c.ttl))
    ensures Reachable(c, phone, n, t)
    ensures var right := c.hash(guess) == c.hash(code);
      t == Become(s.(guesses := s.guesses + [Guess(issued - 1, right)]), w,
                  if right then Right(issued - 1) else Mistaken(issued - 1))
  {
    hide Reachable;
    ReachStep(c, phone, n, s, Act(w, Attempt(guess)));
    var u := Step(c, phone, s, Act(w, Attempt(guess)));
    assert u == Become(s, w, LookedUp(guess));
    ReachStep(c, phone, n, u, Act(w, Next));
    t := Step(c, phone, u, Act(w, Next));
    assert t.workers == s.workers[w := t.workers[w]];
  }

  /** The first `k` workers guess right, all before the code is deleted. */
  lemma {:induction false} GuessRight(c: Config, phone: Phone, n: nat, code: string, k: nat) returns (s: Floor)
    requires Usable(c) && k <= n
    ensures Reachable(c, phone, n, s) && Standing(c, phone, s, n, 1, code, k, Right(0), Idle) && AcceptedOf(s, 0) == k
  {
    hide Reachable;
    if k == 0 {
      s := StoreFirst(c, phone, n, code);
    } else {
      var u := GuessRight(c, phone, n, code, k - 1);
      s := CompareOne(c, phone, n, u, 1, code, k - 1, code);
      OneMoreGuess(u, s, 0, true);
    }
  }

  /** For every number of concurrent verifications some run accepts one code once in each of them. */
  lemma EachWorkerAccepts(c: Config, phone: Phone, n: nat, code: string) returns (acts: seq<Action>)
    requires Usable(c)
    ensures AcceptedOf(Run(c, phone, Init(n), acts), 0) == n
  {
    hide Run;
    var s := GuessRight(c, phone, n, code, n);
    acts := Extract(c, phone, n, s);
  }

  ghost predicate AcceptedAtMostOnce(c: Config, phone: Phone, n: nat) {
    forall acts, gen :: AcceptedOf(Run(c, phone, Init(n), acts), gen) <= 1
  }

  /** The exact condition: no code is ever accepted twice if and only if verifications do not overlap. */
  lemma AcceptedOnceIff(c: Config, phone: Phone, n: nat)
    requires Usable(c)
    ensures AcceptedAtMostOnce(c, phone, n) <==> n <= 1
  {
    hide Run, AcceptedOf;
    if n <= 1 {
      forall acts, gen ensures AcceptedOf(Run(c, phone, Init(n), acts), gen) <= 1 {
        GuessesBoundedByWorkers(c, phone, n, acts, gen);
      }
    } else {
      var acts := EachWorkerAccepts(c, phone, n, "");
    }
  }

  /** The first `k` of the right guesses have deleted the code, the others are about to. */
  ghost predicate Deleting(phone: Phone, s: Floor, n: nat, k: nat) {
    && s.now == 0 && s.issued == 1 && Lockout(phone) !in s.store && |s.workers| == n && k <= n
    && Compared(s, 1) == 0
    && forall w :: 0 <= w < n ==> s.workers[w] == if w < k then Clearing(0) else Right(0)
  }

  lemma {:induction false} DeleteAll(c: Config, phone: Phone, n: nat, code: string, k: nat) returns (s: Floor)
    requires Usable(c) && k <= n
    ensures Reachable(c, phone, n, s) && Deleting(phone, s, n, k)
  {
    hide Reachable;
    if k == 0 {
      s := GuessRight(c, phone, n, code, n);
      NothingComparedYet(c, phone, n, s);
    } else {
      var u := DeleteAll(c, phone, n, code, k - 1);
      ReachStep(c, phone, n, u, Act(k - 1, Next));
      s := Step(c, phone, u, Act(k - 1, Next));
    }
  }

  lemma NothingComparedYet(c: Config, phone: Phone, n: nat, s: Floor)
    requires Usable(c) && Reachable(c, phone, n, s)
    ensures Compared(s, s.issued) == 0
  {
    var acts := Extract(c, phone, n, s);
    hide Run;
    RunKeepsInv(c, phone, n, acts);
    assert GuessInv(c, s, s.issued);
  }

  /** The second code is in place; workers from `i` on are still about to delete the attempt counter. */
  ghost predicate Resetting(c: Config, phone: Phone, s: Floor, n: nat, code: string, i: nat, compared: nat) {
    Standing(c, phone, s, n, 2, code, i, Idle, Clearing(0)) && Compared(s, 1) == compared
  }

  lemma StoreSecond(c: Config, phone: Phone, n: nat, code: string) returns (s: Floor)
    requires Usable(c)
    ensures Reachable(c, phone, n, s) && Resetting(c, phone, s, n, code, 0, 0)
  {
    hide Reachable;
    var u := DeleteAll(c, phone, n, code, n);
    ReachStep(c, phone, n, u, StoreNew(code));
    s := Step(c, phone, u, StoreNew(code));
  }

  /** The attempt counter stands at `k` since it was last deleted. */
  predicate CountedTo(phone: Phone, s: Floor, k: nat) {
    if k == 0 then Attempts(phone) !in s.store
    else Attempts(phone) in s.store && s.store[Attempts(phone)] == Cell(k, None)
  }

  /** The next worker deletes the counter and is free. */
  lemma ResetNext(c: Config, phone: Phone, n: nat, s: Floor, code: string, i: nat, compared: nat) returns (t: Floor)
    requires Reachable(c, phone, n, s) && Resetting(c, phone, s, n, code, i, compared) && i < n
    ensures Reachable(c, phone, n, t) && Resetting(c, phone, t, n, code, i + 1, compared) && CountedTo(phone, t, 0)
  {
    hide Reachable;
    ReachStep(c, phone, n, s, Act(i, Next));
    t := Step(c, phone, s, Act(i, Next));
  }

  /** A wrong guess is counted below the limit. */
  lemma CountBelow(c: Config, phone: Phone, s: Floor, w: nat, gen: nat, k: nat)
    requires w < |s.workers| && s.workers[w] == Mistaken(gen) && CountedTo(phone, s, k) && k + 1 < c.maxAttempts
    ensures var t := Step(c, phone, s, Act(w, Next));
      t == s.(store := s.store[Attempts(phone) := Cell(k + 1, None)], used := t.used,
              workers := s.workers[w := Idle])
  {
  }

  /** A free worker guesses wrong and is counted below the limit. */
  lemma MissOne(c: Config, phone: Phone, n: nat, s: Floor, code: string, bad: string, i: nat, compared: nat, k: nat)
    returns (t: Floor)
    requires Usable(c) && c.hash(bad) != c.hash(code) && i >= 1 && k + 1 < c.maxAttempts
    requires Reachable(c, phone, n, s) && Resetting(c, phone, s, n, code, i, compared) && CountedTo(phone, s, k)
    ensures Reachable(c, phone, n, t) && Resetting(c, phone, t, n, code, i, compared + 1) && CountedTo(phone, t, k + 1)
  {
    hide Reachable, Step, Compared, AcceptedOf;
    var u := CompareOne(c, phone, n, s, 2, code, 0, bad);
    OneMoreGuess(s, u, 1, false);
    t := CountOne(c, phone, n, s, u, k);
    assert Compared(t, 1) == Compared(u, 1) by { SameGuesses(t, u); }
  }

  lemma SameGuesses(s: Floor, t: Floor)
    requires s.guesses == t.guesses
    ensures Compared(s, 1) == Compared(t, 1)
  {
  }

  lemma CountOne(c: Config, phone: Phone, n: nat, s: Floor, u: Floor, k: nat) returns (t: Floor)
    requires Reachable(c, phone, n, u) && CountedTo(phone, s, k) && k + 1 < c.maxAttempts
    requires |s.workers| > 0 && s.workers[0] == Idle
    requires u == Become(s.(guesses := u.guesses), 0, Mistaken(1))
    ensures Reachable(c, phone, n, t)
    ensures t == s.(guesses := u.guesses, store := s.store[Attempts(phone) := Cell(k + 1, None)], used := t.used)
  {
    hide Reachable;
    CountBelow(c, phone, u, 0, 1, k);
    ReachStep(c, phone, n, u, Act(0, Next));
    hide Step;
    t := Step(c, phone, u, Act(0, Next));
    assert t.workers == s.workers;
  }

  lemma {:induction false} MissMany(c: Config, phone: Phone, n: nat, s: Floor, code: string, bad: string, i: nat,
                                    compared: nat, k: nat) returns (t: Floor)
    requires Usable(c) && c.hash(bad) != c.hash(code) && i >= 1 && k < Allowed(c)
    requires Reachable(c, phone, n, s) && Resetting(c, phone, s, n, code, i, compared) && CountedTo(phone, s, 0)
    ensures Reachable(c, phone, n, t) && Resetting(c, phone, t, n, code, i, compared + k) && CountedTo(phone, t, k)
  {
    hide Reachable, Resetting, CountedTo;
    if k == 0 {
      t := s;
    } else {
      t := MissMany(c, phone, n, s, code, bad, i, compared, k - 1);
      t := MissOne(c, phone, n, t, code, bad, i, compared + k - 1, k - 1);
    }
  }

  /** Each of the first `i` resets gives room for one guess less than the limit. */
  lemma {:induction false} ResetMany(c: Config, phone: Phone, n: nat, code: string, bad: string, i: nat)
    returns (s: Floor, compared: nat)
    requires Usable(c) && c.hash(bad) != c.hash(code) && i <= n
    ensures compared == i * (Allowed(c) - 1)
    ensures Reachable(c, phone, n, s) && Resetting(c, phone, s, n, code, i, compared)
  {
    hide Reachable, Resetting, CountedTo;
    if i == 0 {
      s := StoreSecond(c, phone, n, code);
      compared := 0;
    } else {
      s, compared := ResetMany(c, phone, n, code, bad, i - 1);
      s := ResetNext(c, phone, n, s, code, i - 1, compared);
      s := MissMany(c, phone, n, s, code, bad, i, compared, Allowed(c) - 1);
      OneResetMore(Allowed(c) - 1, i - 1);
      compared := compared + Allowed(c) - 1;
    }
  }

  /** At the end all workers compare one more guess before any of them is counted. */
  lemma {:induction false} MissTogether(c: Config, phone: Phone, n: nat, code: string, bad: string, k: nat)
    returns (s: Floor)
    requires Usable(c) && c.hash(bad) != c.hash(code) && k <= n
    ensures Reachable(c, phone, n, s) && Standing(c, phone, s, n, 2, code, k, Mistaken(1), Idle)
    ensures Compared(s, 1) == n * (Allowed(c) - 1) + k
  {
    hide Reachable;
    if k == 0 {
      var compared;
      s, compared := ResetMany(c, phone, n, code, bad, n);
    } else {
      var u := MissTogether(c, phone, n, code, bad, k - 1);
      s := CompareOne(c, phone, n, u, 2, code, k - 1, bad);
      OneMoreGuess(u, s, 1, false);
    }
  }

  /** For every number of concurrent verifications and every limit some run compares one code with as many
      guesses as the bound allows. */
  lemma ComparisonBoundIsReached(c: Config, phone: Phone, n: nat, code: string, bad: string)
    returns (acts: seq<Action>)
    requires Usable(c) && c.hash(bad) != c.hash(code)
    ensures Compared(Run(c, phone, Init(n), acts), 1) == n * Max(c.maxAttempts, 1)
  {
    hide Run, Compared;
    var s := MissTogether(c, phone, n, code, bad, n);
    OneResetMore(n, Allowed(c) - 1);
    acts := Extract(c, phone, n, s);
  }
}
