/** The failover loop of one message over its scored devices, seen through its effects on the circuit
    breakers, the health histories, the rate counters and the accounts. Every answer a gate gives is an
    input, so what is proved holds for whatever the shared components answer. */
module Dispatch {
  import opened Common

  datatype Gate = Pass | Deny | Fault

  /** One scored device and what its gates and its send will answer. */
  datatype Candidate = Candidate(
    device: string, carrier: string,
    breakerOpen: bool, throttle: Gate, rate: Gate,
    simBlocked: bool, healthChanged: bool,
    connected: bool, sendOk: bool)

  datatype Error =
    | AccountOpen | Fraud | DevicesUnavailable | NoDevices | CostUnavailable | NothingScored
    | ThrottleFault | Throttled(carrier: string) | RateFault | RateExceeded(device: string)
    | SimBlocked(device: string) | Disconnected | SendFailed

  /** The checks before the loop, in order; `None` lets the loop run. */
  datatype Message = Message(account: string, early: Option<Error>)

  datatype Effect =
    | BreakerFailure(device: string) | BreakerSuccess(device: string)
    | HealthSample(device: string, success: bool) | HealthUpdate(device: string)
    | Publish(device: string, ok: bool)
    | DeliveryStatus | DeviceAssigned(device: string)
    | DeviceCounter(device: string) | ThrottleCounter(carrier: string)
    | Sent(device: string) | Usage(account: string)
    | CountedFailed | CountedDelivered | CountedProcessed(ok: bool)

  // ---- one attempt ----

  datatype Attempt = Skipped | Failed(error: Error) | Delivered

  function Try(k: Candidate): Attempt {
    if k.breakerOpen then Skipped
    else if k.throttle == Fault then Failed(ThrottleFault)
    else if k.throttle == Deny then Failed(Throttled(k.carrier))
    else if k.rate == Fault then Failed(RateFault)
    else if k.rate == Deny then Failed(RateExceeded(k.device))
    else if k.simBlocked then Failed(SimBlocked(k.device))
    else if !k.connected then Failed(Disconnected)
    else if !k.sendOk then Failed(SendFailed)
    else Delivered
  }

  /** All gates are passed and the send is attempted or found impossible. */
  predicate PassesGates(k: Candidate) {
    !k.breakerOpen && k.throttle == Pass && k.rate == Pass && !k.simBlocked
  }

  /** What is done before the outcome is known. */
  function Lead(k: Candidate): seq<Effect> {
    (if k.healthChanged then [HealthUpdate(k.device)] else [])
    + if k.connected then [Publish(k.device, k.sendOk)] else []
  }

  function FailureEffects(device: string): seq<Effect> {
    [BreakerFailure(device), HealthSample(device, false), CountedFailed]
  }

  function Increments(account: string, device: string, carrier: string): seq<Effect> {
    [DeviceCounter(device), ThrottleCounter(carrier), Sent(device), Usage(account)]
  }

  function SuccessEffects(account: string, device: string, carrier: string): seq<Effect> {
    [HealthSample(device, true), DeliveryStatus, DeviceAssigned(device)] + Increments(account, device, carrier)
    + [BreakerSuccess(device), CountedDelivered, CountedProcessed(true)]
  }

  function Effects(account: string, k: Candidate): seq<Effect> {
    if !PassesGates(k) then []
    else if k.connected && k.sendOk then Lead(k) + SuccessEffects(account, k.device, k.carrier)
    else Lead(k) + FailureEffects(k.device)
  }

  // ---- the loop ----

  function AllEffects(account: string, scored: seq<Candidate>): seq<Effect> {
    if scored == [] then []
    else AllEffects(account, scored[..|scored| - 1]) + Effects(account, scored[|scored| - 1])
  }

  function LastError(scored: seq<Candidate>): Option<Error> {
    if scored == [] then None
    else
      match Try(scored[|scored| - 1])
      case Failed(e) => Some(e)
      case _ => LastError(scored[..|scored| - 1])
  }

  /** The index of the first candidate that gets the message through, or the length. */
  function FirstDelivered(scored: seq<Candidate>): (k: nat)
    ensures k <= |scored|
    ensures forall i :: 0 <= i < k ==> Try(scored[i]) != Delivered
    ensures k < |scored| ==> Try(scored[k]) == Delivered
  {
    if scored == [] then 0
    else
      var k := FirstDelivered(scored[..|scored| - 1]);
      if k < |scored| - 1 || Try(scored[|scored| - 1]) == Delivered then k else |scored|
  }

  datatype Report = Report(error: Option<Error>, effects: seq<Effect>)

  function Early(m: Message): Report {
    Report(m.early, if m.early == Some(CostUnavailable) then [] else [CountedFailed, CountedProcessed(false)])
  }

  function Process(m: Message, scored: seq<Candidate>): Report {
    if m.early.Some? then Early(m)
    else if scored == [] then Early(m.(early := Some(NothingScored)))
    else
      var k := FirstDelivered(scored);
      if k < |scored| then Report(None, AllEffects(m.account, scored[..k + 1]))
      else
        var e := LastError(scored);
        Report(e, AllEffects(m.account, scored) + if e.Some? then [CountedFailed, CountedProcessed(false)] else [])
  }

  /** The effect touches nothing but this candidate's device and carrier and this account. */
  predicate Concerns(e: Effect, account: string, k: Candidate) {
    match e
    case ThrottleCounter(carrier) => carrier == k.carrier
    case Usage(a) => a == account
    case DeliveryStatus => true
    case CountedFailed => true
    case CountedDelivered => true
    case CountedProcessed(_) => true
    case _ => e.device == k.device
  }

  /** What one attempt leaves behind: on a failed or impossible send a breaker failure and a failed health
      sample and no increment; on a success a breaker success, a successful health sample and all four
      increments. */
  predicate LeavesTrace(effects: seq<Effect>, account: string, k: Candidate, sent: bool) {
    var d := k.device;
    && (BreakerFailure(d) in effects <==> !sent) && (HealthSample(d, false) in effects <==> !sent)
    && (BreakerSuccess(d) in effects <==> sent) && (HealthSample(d, true) in effects <==> sent)
    && (DeviceCounter(d) in effects <==> sent) && (ThrottleCounter(k.carrier) in effects <==> sent)
    && (Sent(d) in effects <==> sent) && (Usage(account) in effects <==> sent)
  }

  ghost predicate AllConcern(effects: seq<Effect>, account: string, k: Candidate) {
    forall e :: e in effects ==> Concerns(e, account, k)
  }

  lemma LeadMembers(k: Candidate, e: Effect)
    requires e in Lead(k)
    ensures (e.HealthUpdate? || e.Publish?) && e.device == k.device
  {
  }

  lemma FailureMembers(d: string, e: Effect)
    ensures e in FailureEffects(d) <==> e == BreakerFailure(d) || e == HealthSample(d, false) || e == CountedFailed
  {
  }

  lemma SuccessMembers(account: string, d: string, carrier: string, e: Effect)
    ensures e in SuccessEffects(account, d, carrier) <==>
      || e == HealthSample(d, true) || e == DeliveryStatus || e == DeviceAssigned(d)
      || e == DeviceCounter(d) || e == ThrottleCounter(carrier) || e == Sent(d) || e == Usage(account)
      || e == BreakerSuccess(d) || e == CountedDelivered || e == CountedProcessed(true)
  {
    var head := [HealthSample(d, true), DeliveryStatus, DeviceAssigned(d)];
    var tail := [BreakerSuccess(d), CountedDelivered, CountedProcessed(true)];
    assert SuccessEffects(account, d, carrier) == head + Increments(account, d, carrier) + tail;
    assert e in Increments(account, d, carrier) <==>
      e == DeviceCounter(d) || e == ThrottleCounter(carrier) || e == Sent(d) || e == Usage(account);
    assert e in tail <==> e == BreakerSuccess(d) || e == CountedDelivered || e == CountedProcessed(true);
  }

  lemma FailureHas(k: Candidate, e: Effect)
    ensures e in Lead(k) + FailureEffects(k.device) ==> e.HealthUpdate? || e.Publish? || e in FailureEffects(k.device)
    ensures e in Lead(k) + FailureEffects(k.device) && (e.HealthUpdate? || e.Publish?) ==> e.device == k.device
    ensures e in FailureEffects(k.device) ==> e in Lead(k) + FailureEffects(k.device)
  {
    if e in Lead(k) {
      LeadMembers(k, e);
    }
    FailureMembers(k.device, e);
  }

  lemma FailureTrace(account: string, k: Candidate)
    ensures LeavesTrace(Lead(k) + FailureEffects(k.device), account, k, false)
    ensures AllConcern(Lead(k) + FailureEffects(k.device), account, k)
  {
    hide Lead, FailureEffects;
    forall e ensures
      && (e in Lead(k) + FailureEffects(k.device) ==> Concerns(e, account, k))
      && (!e.HealthUpdate? && !e.Publish? ==>
            (e in Lead(k) + FailureEffects(k.device) <==>
              e == BreakerFailure(k.device) || e == HealthSample(k.device, false) || e == CountedFailed))
    {
      FailureHas(k, e);
      FailureMembers(k.device, e);
    }
  }

  lemma SuccessHas(account: string, k: Candidate, e: Effect)
    ensures var tail := SuccessEffects(account, k.device, k.carrier);
      && (e in Lead(k) + tail ==> e.HealthUpdate? || e.Publish? || e in tail)
      && (e in Lead(k) + tail && (e.HealthUpdate? || e.Publish?) ==> e.device == k.device)
      && (e in tail ==> e in Lead(k) + tail)
  {
    if e in Lead(k) {
      LeadMembers(k, e);
    }
    SuccessMembers(account, k.device, k.carrier, e);
  }

  lemma SuccessConcerns(account: string, k: Candidate, e: Effect)
    requires e in Lead(k) + SuccessEffects(account, k.device, k.carrier)
    ensures Concerns(e, account, k)
  {
    hide Lead, SuccessEffects;
    SuccessHas(account, k, e);
    SuccessMembers(account, k.device, k.carrier, e);
  }

  lemma SuccessTrace(account: string, k: Candidate)
    ensures LeavesTrace(Lead(k) + SuccessEffects(account, k.device, k.carrier), account, k, true)
    ensures AllConcern(Lead(k) + SuccessEffects(account, k.device, k.carrier), account, k)
  {
    hide Lead, SuccessEffects, Concerns;
    var d, carrier := k.device, k.carrier;
    var all := Lead(k) + SuccessEffects(account, d, carrier);
    forall e | e in all ensures Concerns(e, account, k) {
      SuccessConcerns(account, k, e);
    }
    forall e: Effect | !e.HealthUpdate? && !e.Publish?
      ensures e in all <==> e in SuccessEffects(account, d, carrier)
    {
      SuccessHas(account, k, e);
    }
    SuccessMembers(account, d, carrier, BreakerFailure(d));
    SuccessMembers(account, d, carrier, HealthSample(d, false));
    SuccessMembers(account, d, carrier, BreakerSuccess(d));
    SuccessMembers(account, d, carrier, HealthSample(d, true));
    SuccessMembers(account, d, carrier, DeviceCounter(d));
    SuccessMembers(account, d, carrier, ThrottleCounter(carrier));
    SuccessMembers(account, d, carrier, Sent(d));
    SuccessMembers(account, d, carrier, Usage(account));
  }

  lemma AttemptTrace(account: string, k: Candidate)
    ensures var effects, a := Effects(account, k), Try(k);
      && (effects == [] <==> !PassesGates(k))
      && (PassesGates(k) ==> LeavesTrace(effects, account, k, a.Delivered?) && AllConcern(effects, account, k))
  {
    hide LeavesTrace, AllConcern;
    if PassesGates(k) {
      if k.connected && k.sendOk {
        SuccessTrace(account, k);
      } else {
        FailureTrace(account, k);
      }
    }
  }

  /** A send that was tried: an update of the health status, the publish, and what follows from its outcome. */
  predicate LeavesInOrder(effects: seq<Effect>, account: string, k: Candidate) {
    var d, updates := k.device, if k.healthChanged then [HealthUpdate(k.device)] else [];
    effects == updates
      + if !k.connected then [BreakerFailure(d), HealthSample(d, false), CountedFailed]
        else if !k.sendOk then [Publish(d, false), BreakerFailure(d), HealthSample(d, false), CountedFailed]
        else [Publish(d, true), HealthSample(d, true), DeliveryStatus, DeviceAssigned(d), DeviceCounter(d),
              ThrottleCounter(k.carrier), Sent(d), Usage(account), BreakerSuccess(d), CountedDelivered,
              CountedProcessed(true)]
  }

  lemma AttemptOrder(account: string, k: Candidate)
    ensures PassesGates(k) ==> LeavesInOrder(Effects(account, k), account, k)
  {
  }

  /** The body of the loop for one device. A closed gate leaves no trace; a send leaves its effects in this
      order. */
  method AttemptDevice(account: string, k: Candidate) returns (a: Attempt, effects: seq<Effect>)
    ensures a.Skipped? <==> k.breakerOpen
    ensures a.Delivered? <==> PassesGates(k) && k.connected && k.sendOk
    ensures effects == [] <==> !PassesGates(k)
    ensures effects != [] ==> LeavesTrace(effects, account, k, a.Delivered?) && AllConcern(effects, account, k)
    ensures PassesGates(k) ==> LeavesInOrder(effects, account, k)
    ensures a == Try(k) && effects == Effects(account, k)
  {
    hide LeavesTrace, AllConcern, Effects, Lead, FailureEffects, SuccessEffects;
    AttemptTrace(account, k);
    AttemptOrder(account, k);
    effects := [];
    if k.breakerOpen {
      return Skipped, effects;
    }
    if k.throttle != Pass {
      return Failed(if k.throttle == Fault then ThrottleFault else Throttled(k.carrier)), effects;
    }
    if k.rate != Pass {
      return Failed(if k.rate == Fault then RateFault else RateExceeded(k.device)), effects;
    }
    if k.simBlocked {
      return Failed(SimBlocked(k.device)), effects;
    }
    if k.healthChanged {
      effects := effects + [HealthUpdate(k.device)];
    }
    if !k.connected {
      effects := effects + [BreakerFailure(k.device), HealthSample(k.device, false), CountedFailed];
      assert effects == Effects(account, k);
      return Failed(Disconnected), effects;
    }
    effects := effects + [Publish(k.device, k.sendOk)];
    if !k.sendOk {
      effects := effects + [BreakerFailure(k.device), HealthSample(k.device, false), CountedFailed];
      assert effects == Effects(account, k);
      return Failed(SendFailed), effects;
    }
    effects := effects + [HealthSample(k.device, true), DeliveryStatus, DeviceAssigned(k.device)];
    effects := effects + [DeviceCounter(k.device), ThrottleCounter(k.carrier), Sent(k.device), Usage(account)];
    effects := effects + [BreakerSuccess(k.device), CountedDelivered, CountedProcessed(true)];
    assert effects == Effects(account, k);
    a := Delivered;
  }

  method ProcessMessage(m: Message, scored: seq<Candidate>) returns (err: Option<Error>, effects: seq<Effect>)
    ensures Report(err, effects) == Process(m, scored)
    ensures m.early.Some? ==>
      err == m.early && effects == if err == Some(CostUnavailable) then [] else [CountedFailed, CountedProcessed(false)]
    ensures m.early.None? && scored == [] ==>
      err == Some(NothingScored) && effects == [CountedFailed, CountedProcessed(false)]
  {
    hide Effects, Try;
    effects := [];
    if m.early.Some? {
      if m.early != Some(CostUnavailable) {
        effects := [CountedFailed, CountedProcessed(false)];
      }
      return m.early, effects;
    }
    if |scored| == 0 {
      return Some(NothingScored), [CountedFailed, CountedProcessed(false)];
    }
    err := None;
    for i := 0 to |scored|
      invariant err == LastError(scored[..i])
      invariant effects == AllEffects(m.account, scored[..i])
      invariant forall j :: 0 <= j < i ==> Try(scored[j]) != Delivered
    {
      assert scored[..i + 1][..i] == scored[..i];
      var attempt, made := AttemptDevice(m.account, scored[i]);
      effects := effects + made;
      match attempt
      case Skipped =>
      case Failed(e) => err := Some(e);
      case Delivered =>
        FirstIs(scored, i);
        return None, effects;
    }
    assert scored[..|scored|] == scored;
    if err.Some? {
      effects := effects + [CountedFailed, CountedProcessed(false)];
    }
  }

  lemma FirstIs(scored: seq<Candidate>, i: nat)
    requires i < |scored| && Try(scored[i]) == Delivered && forall j :: 0 <= j < i ==> Try(scored[j]) != Delivered
    ensures FirstDelivered(scored) == i
  {
    var k := FirstDelivered(scored);
  }

  // ---- what one call does ----

  function N(effects: seq<Effect>, e: Effect): nat {
    multiset(effects)[e]
  }

  /** The candidate that gets the message through, if there is one. */
  function Winner(m: Message, scored: seq<Candidate>): Option<Candidate> {
    var k := FirstDelivered(scored);
    if m.early == None && k < |scored| then Some(scored[k]) else None
  }

  /** The success effects are exactly one of each kind, for the winner, and none without a winner. */
  ghost predicate OneOfEach(account: string, w: Option<Candidate>, effects: seq<Effect>) {
    && (forall d ::
          var n := if w.Some? && w.value.device == d then 1 else 0;
          && N(effects, Publish(d, true)) == n && N(effects, DeviceCounter(d)) == n && N(effects, Sent(d)) == n
          && N(effects, DeviceAssigned(d)) == n && N(effects, BreakerSuccess(d)) == n
          && N(effects, HealthSample(d, true)) == n)
    && (forall c :: N(effects, ThrottleCounter(c)) == if w.Some? && w.value.carrier == c then 1 else 0)
    && (forall a :: N(effects, Usage(a)) == if w.Some? && account == a then 1 else 0)
  }

  /** Every failed attempt is reported to the breaker and to the health history alike. */
  ghost predicate FailuresAgree(effects: seq<Effect>) {
    forall d :: N(effects, BreakerFailure(d)) == N(effects, HealthSample(d, false))
  }

  lemma {:induction false} AttemptCounts(account: string, k: Candidate)
    ensures OneOfEach(account, if Try(k) == Delivered then Some(k) else None, Effects(account, k))
    ensures FailuresAgree(Effects(account, k))
  {
    hide OneOfEach, FailuresAgree, FailureEffects, SuccessEffects, Lead;
    if !PassesGates(k) {
      NothingCounts(account, []);
    } else if k.connected && k.sendOk {
      DeliveredCounts(account, k);
    } else {
      FailedCounts(account, k);
    }
  }

  lemma AddCounts(a: seq<Effect>, b: seq<Effect>, e: Effect)
    ensures N(a + b, e) == N(a, e) + N(b, e)
  {
    assert multiset(a + b) == multiset(a) + multiset(b);
  }

  lemma LeadCounts(k: Candidate, e: Effect)
    ensures N(Lead(k), e)
            == Bit(k.healthChanged && e == HealthUpdate(k.device))
                + Bit(k.connected && e == Publish(k.device, k.sendOk))
  {
  }

  lemma IncrementCounts(account: string, d: string, carrier: string, e: Effect)
    ensures N(Increments(account, d, carrier), e)
            == Bit(e in {DeviceCounter(d), ThrottleCounter(carrier), Sent(d), Usage(account)})
  {
    assert multiset(Increments(account, d, carrier))
        == multiset{DeviceCounter(d), ThrottleCounter(carrier), Sent(d), Usage(account)};
  }

  lemma SuccessCounts(account: string, d: string, carrier: string, e: Effect)
    ensures N(SuccessEffects(account, d, carrier), e)
            == Bit(e in {HealthSample(d, true), DeliveryStatus, DeviceAssigned(d)})
               + Bit(e in {DeviceCounter(d), ThrottleCounter(carrier), Sent(d), Usage(account)})
               + Bit(e in {BreakerSuccess(d), CountedDelivered, CountedProcessed(true)})
  {
    var a, b, c := [HealthSample(d, true), DeliveryStatus, DeviceAssigned(d)], Increments(account, d, carrier),
                   [BreakerSuccess(d), CountedDelivered, CountedProcessed(true)];
    ThreeCounts(HealthSample(d, true), DeliveryStatus, DeviceAssigned(d), e);
    ThreeCounts(BreakerSuccess(d), CountedDelivered, CountedProcessed(true), e);
    IncrementCounts(account, d, carrier, e);
    AddCounts(a, b, e);
    AddCounts(a + b, c, e);
    hide N;
  }

  lemma ThreeCounts(x: Effect, y: Effect, z: Effect, e: Effect)
    requires x != y && x != z && y != z
    ensures N([x, y, z], e) == Bit(e in {x, y, z})
  {
    assert multiset([x, y, z]) == multiset{x, y, z};
  }

  lemma FailureCounts(d: string, e: Effect)
    ensures N(FailureEffects(d), e) == Bit(e in {BreakerFailure(d), HealthSample(d, false), CountedFailed})
  {
    assert multiset(FailureEffects(d)) == multiset{BreakerFailure(d), HealthSample(d, false), CountedFailed};
  }

  function DeliveredCount(account: string, k: Candidate, e: Effect): nat {
    Bit(k.healthChanged && e == HealthUpdate(k.device)) + Bit(e == Publish(k.device, true))
    + Bit(e in {HealthSample(k.device, true), DeliveryStatus, DeviceAssigned(k.device)})
    + Bit(e in {DeviceCounter(k.device), ThrottleCounter(k.carrier), Sent(k.device), Usage(account)})
    + Bit(e in {BreakerSuccess(k.device), CountedDelivered, CountedProcessed(true)})
  }

  lemma {:induction false} DeliveredCounts(account: string, k: Candidate)
    requires PassesGates(k) && k.connected && k.sendOk
    ensures OneOfEach(account, Some(k), Effects(account, k)) && FailuresAgree(Effects(account, k))
  {
    hide N, Lead, SuccessEffects, OneOfEach, FailuresAgree;
    forall e: Effect ensures N(Effects(account, k), e) == DeliveredCount(account, k, e) {
      AddCounts(Lead(k), SuccessEffects(account, k.device, k.carrier), e);
      LeadCounts(k, e);
      SuccessCounts(account, k.device, k.carrier, e);
    }
    DeliveredIsOneOfEach(account, k, Effects(account, k));
  }

  lemma DeliveredOnDevice(account: string, k: Candidate, d: string)
    ensures var n := if k.device == d then 1 else 0;
      && DeliveredCount(account, k, Publish(d, true)) == n && DeliveredCount(account, k, DeviceCounter(d)) == n
      && DeliveredCount(account, k, Sent(d)) == n && DeliveredCount(account, k, DeviceAssigned(d)) == n
      && DeliveredCount(account, k, BreakerSuccess(d)) == n && DeliveredCount(account, k, HealthSample(d, true)) == n
    ensures DeliveredCount(account, k, BreakerFailure(d)) == 0
      && DeliveredCount(account, k, HealthSample(d, false)) == 0
  {
  }

  lemma DeliveredElsewhere(account: string, k: Candidate, c: string)
    ensures DeliveredCount(account, k, ThrottleCounter(c)) == if k.carrier == c then 1 else 0
    ensures DeliveredCount(account, k, Usage(c)) == if account == c then 1 else 0
  {
  }

  /** What exact counts of every effect of a success amount to. */
  lemma DeliveredIsOneOfEach(account: string, k: Candidate, effects: seq<Effect>)
    requires forall e: Effect :: N(effects, e) == DeliveredCount(account, k, e)
    ensures OneOfEach(account, Some(k), effects) && FailuresAgree(effects)
  {
    hide N, DeliveredCount;
    forall d: string ensures
      && N(effects, BreakerFailure(d)) == N(effects, HealthSample(d, false))
      && N(effects, ThrottleCounter(d)) == (if k.carrier == d then 1 else 0)
      && N(effects, Usage(d)) == (if account == d then 1 else 0)
    {
      DeliveredOnDevice(account, k, d);
      DeliveredElsewhere(account, k, d);
    }
    forall d: string ensures
      var n := if k.device == d then 1 else 0;
      && N(effects, Publish(d, true)) == n && N(effects, DeviceCounter(d)) == n && N(effects, Sent(d)) == n
      && N(effects, DeviceAssigned(d)) == n && N(effects, BreakerSuccess(d)) == n
      && N(effects, HealthSample(d, true)) == n
    {
      DeliveredOnDevice(account, k, d);
    }
  }

  lemma {:induction false} FailedCounts(account: string, k: Candidate)
    requires PassesGates(k) && !(k.connected && k.sendOk)
    ensures OneOfEach(account, None, Effects(account, k)) && FailuresAgree(Effects(account, k))
  {
    hide N, Lead, FailureEffects;
    forall e: Effect ensures N(Effects(account, k), e)
      == Bit(k.healthChanged && e == HealthUpdate(k.device)) + Bit(k.connected && e == Publish(k.device, false))
         + Bit(e in {BreakerFailure(k.device), HealthSample(k.device, false), CountedFailed})
    {
      AddCounts(Lead(k), FailureEffects(k.device), e);
      LeadCounts(k, e);
      FailureCounts(k.device, e);
    }
  }

  lemma CountsAdd(account: string, a: seq<Effect>, b: seq<Effect>, w: Option<Candidate>)
    requires OneOfEach(account, None, a) && OneOfEach(account, w, b) && FailuresAgree(a) && FailuresAgree(b)
    ensures OneOfEach(account, w, a + b) && FailuresAgree(a + b)
  {
    assert multiset(a + b) == multiset(a) + multiset(b);
    forall e: Effect ensures N(a + b, e) == N(a, e) + N(b, e) {
    }
  }

  lemma {:induction false} LosingCounts(account: string, scored: seq<Candidate>)
    requires forall i :: 0 <= i < |scored| ==> Try(scored[i]) != Delivered
    ensures OneOfEach(account, None, AllEffects(account, scored)) && FailuresAgree(AllEffects(account, scored))
  {
    hide Effects, Try, OneOfEach, FailuresAgree;
    if scored == [] {
      NothingCounts(account, []);
    } else {
      LosingCounts(account, scored[..|scored| - 1]);
      AttemptCounts(account, scored[|scored| - 1]);
      CountsAdd(account, AllEffects(account, scored[..|scored| - 1]), Effects(account, scored[|scored| - 1]), None);
    }
  }

  lemma NothingCounts(account: string, metrics: seq<Effect>)
    requires metrics == [] || metrics == [CountedFailed, CountedProcessed(false)]
    ensures OneOfEach(account, None, metrics) && FailuresAgree(metrics)
  {
  }

  /** For every list of candidates and every answer of the gates: at most one successful publish; one
      device counter, throttle, sent and usage increment each on success and none on failure; health
      samples and breaker events of every device agree in successes and in failures. */
  lemma {:induction false} ProcessCounts(m: Message, scored: seq<Candidate>)
    ensures OneOfEach(m.account, Winner(m, scored), Process(m, scored).effects)
    ensures FailuresAgree(Process(m, scored).effects)
  {
    hide Effects, Try, OneOfEach, FailuresAgree;
    if m.early.Some? || scored == [] {
      NothingCounts(m.account, Process(m, scored).effects);
    } else {
      var k := FirstDelivered(scored);
      if k < |scored| {
        LosingCounts(m.account, scored[..k]);
        AttemptCounts(m.account, scored[k]);
        assert scored[..k + 1][..k] == scored[..k];
        CountsAdd(m.account, AllEffects(m.account, scored[..k]), Effects(m.account, scored[k]), Some(scored[k]));
      } else {
        var tail := if LastError(scored).Some? then [CountedFailed, CountedProcessed(false)] else [];
        LosingCounts(m.account, scored);
        NothingCounts(m.account, tail);
        CountsAdd(m.account, AllEffects(m.account, scored), tail, None);
      }
    }
  }

  predicate AllOpen(m: Message, scored: seq<Candidate>) {
    m.early == None && scored != [] && forall i :: 0 <= i < |scored| ==> scored[i].breakerOpen
  }

  lemma {:induction false} NoErrorMeansAllOpen(scored: seq<Candidate>)
    requires forall i :: 0 <= i < |scored| ==> Try(scored[i]) != Delivered
    ensures LastError(scored) == None <==> forall i :: 0 <= i < |scored| ==> scored[i].breakerOpen
  {
    if scored != [] {
      NoErrorMeansAllOpen(scored[..|scored| - 1]);
      assert forall i :: 0 <= i < |scored| - 1 ==> scored[..|scored| - 1][i] == scored[i];
    }
  }

  /** A nil return means exactly: one successful publish, or every candidate's breaker was open. */
  lemma NilReturnIff(m: Message, scored: seq<Candidate>)
    ensures Process(m, scored).error == None <==> Winner(m, scored).Some? || AllOpen(m, scored)
  {
    var k := FirstDelivered(scored);
    if m.early == None && k == |scored| {
      NoErrorMeansAllOpen(scored);
    }
    if k < |scored| {
      assert !scored[k].breakerOpen;
    }
  }

  // ---- calls of many workers interleaved effect by effect ----

  /** What is still to be done of each worker's current call, and everything done so far. */
  datatype Floor = Floor(trace: seq<Effect>, rest: seq<seq<Effect>>)

  datatype Action = Begin(w: nat, m: Message, scored: seq<Candidate>) | Emit(w: nat)

  function Step(f: Floor, a: Action): Floor {
    if a.w >= |f.rest| then f
    else
      match a
      case Begin(w, m, scored) =>
        if f.rest[w] == [] then f.(rest := f.rest[w := Process(m, scored).effects]) else f
      case Emit(w) =>
        if f.rest[w] == [] then f
        else Floor(f.trace + [f.rest[w][0]], f.rest[w := f.rest[w][1..]])
  }

  function Run(f: Floor, acts: seq<Action>): Floor {
    if acts == [] then f else Step(Run(f, acts[..|acts| - 1]), acts[|acts| - 1])
  }

  function Workers(n: nat): Floor {
    Floor([], seq(n, _ => []))
  }

  /** Of a pair of effects that every call makes equally often: how many more of `second` than of
      `first` are in the list. */
  function Owed(effects: seq<Effect>, first: Effect, second: Effect): int {
    N(effects, second) - N(effects, first)
  }

  /** `first` comes just before its `second` in every call: each suffix owes at most one `second`. */
  ghost predicate Tidy(effects: seq<Effect>, first: Effect, second: Effect)
    decreases |effects|
  {
    0 <= Owed(effects, first, second) <= 1
    && (effects != [] ==> Tidy(effects[1..], first, second))
  }

  lemma TidyCons(e: Effect, rest: seq<Effect>, first: Effect, second: Effect)
    requires Tidy(rest, first, second) && 0 <= Owed([e] + rest, first, second) <= 1
    ensures Tidy([e] + rest, first, second)
  {
    assert ([e] + rest)[1..] == rest;
  }

  lemma OwedConcat(a: seq<Effect>, b: seq<Effect>, first: Effect, second: Effect)
    ensures Owed(a + b, first, second) == Owed(a, first, second) + Owed(b, first, second)
  {
    assert multiset(a + b) == multiset(a) + multiset(b);
  }

  lemma OwedOther(e: Effect, first: Effect, second: Effect)
    requires e != first && e != second
    ensures Owed([e], first, second) == 0
  {
  }

  lemma TidyOwes(rest: seq<Effect>, first: Effect, second: Effect)
    requires Tidy(rest, first, second)
    ensures 0 <= Owed(rest, first, second) <= 1
  {
  }

  lemma {:induction false} TidyNeutral(a: seq<Effect>, rest: seq<Effect>, first: Effect, second: Effect)
    requires first !in a && second !in a && Tidy(rest, first, second)
    ensures Tidy(a + rest, first, second) && Owed(a + rest, first, second) == Owed(rest, first, second)
    decreases |a|
  {
    hide Tidy, Owed;
    if a == [] {
      assert a + rest == rest;
    } else {
      var more := a[1..] + rest;
      TidyNeutral(a[1..], rest, first, second);
      assert a + rest == [a[0]] + more;
      OwedConcat([a[0]], more, first, second);
      OwedOther(a[0], first, second);
      assert 0 <= Owed(rest, first, second) <= 1 by { TidyOwes(rest, first, second); }
      TidyCons(a[0], a[1..] + rest, first, second);
    }
  }

  lemma {:induction false} TidyConcat(a: seq<Effect>, b: seq<Effect>, first: Effect, second: Effect)
    requires Tidy(a, first, second) && Tidy(b, first, second) && Owed(b, first, second) == 0
    ensures Tidy(a + b, first, second) && Owed(a + b, first, second) == Owed(a, first, second)
    decreases |a|
  {
    hide Owed;
    OwedConcat(a, b, first, second);
    if a == [] {
      assert a + b == b;
    } else {
      TidyConcat(a[1..], b, first, second);
      hide Tidy;
      ConcatHead(a, b);
      assert a + b == [a[0]] + (a[1..] + b);
      TidyOwes(a, first, second);
      TidyCons(a[0], a[1..] + b, first, second);
    }
  }

  /** The pairs in the order the loop makes them: the health sample comes before the breaker's success,
      and the breaker's failure comes before the health sample. */
  predicate Paired(d: string, first: Effect, second: Effect) {
    || (first == HealthSample(d, true) && second == BreakerSuccess(d))
    || (first == BreakerFailure(d) && second == HealthSample(d, false))
  }

  /** A list in which the pair occurs once, in order, or not at all. */
  lemma TidyPair(a: seq<Effect>, x: Effect, b: seq<Effect>, y: Effect, c: seq<Effect>, first: Effect, second: Effect)
    requires first != second
    requires first !in a + b + c && second !in a + b + c
    requires (x == first && y == second) || (x != first && x != second && y != first && y != second)
    ensures var all := a + ([x] + (b + ([y] + c)));
      Tidy(all, first, second) && Owed(all, first, second) == 0
  {
    assert forall e :: e in a || e in b || e in c ==> e in a + b + c;
    assert Tidy([], first, second);
    assert c + [] == c;
    TidyNeutral(c, [], first, second);
    OwedConcat([y], c, first, second);
    TidyCons(y, c, first, second);
    TidyNeutral(b, [y] + c, first, second);
    OwedConcat([x], b + ([y] + c), first, second);
    TidyCons(x, b + ([y] + c), first, second);
    TidyNeutral(a, [x] + (b + ([y] + c)), first, second);
  }

  lemma {:induction false} AttemptTidy(account: string, k: Candidate, d: string, first: Effect, second: Effect)
    requires Paired(d, first, second)
    ensures Tidy(Effects(account, k), first, second) && Owed(Effects(account, k), first, second) == 0
  {
    var v := k.device;
    if !PassesGates(k) {
      NothingTidy([], first, second);
    } else if k.connected && k.sendOk {
      DeliveredTidy(Lead(k), account, v, k.carrier, d, first, second);
    } else {
      FailedTidy(Lead(k), v, d, first, second);
    }
  }

  lemma DeliveredTidy(a: seq<Effect>, account: string, v: string, carrier: string, d: string, first: Effect,
                      second: Effect)
    requires Paired(d, first, second) && first !in a && second !in a
    ensures var e := a + SuccessEffects(account, v, carrier); Tidy(e, first, second) && Owed(e, first, second) == 0
  {
    hide Tidy, Owed;
    var b := [DeliveryStatus, DeviceAssigned(v)] + Increments(account, v, carrier);
    var c := [CountedDelivered, CountedProcessed(true)];
    TidyPair(a, HealthSample(v, true), b, BreakerSuccess(v), c, first, second);
    assert [HealthSample(v, true)] + (b + ([BreakerSuccess(v)] + c)) == SuccessEffects(account, v, carrier);
  }

  lemma FailedTidy(a: seq<Effect>, v: string, d: string, first: Effect, second: Effect)
    requires Paired(d, first, second) && first !in a && second !in a
    ensures var e := a + FailureEffects(v); Tidy(e, first, second) && Owed(e, first, second) == 0
  {
    hide Tidy, Owed;
    TidyPair(a, BreakerFailure(v), [], HealthSample(v, false), [CountedFailed], first, second);
    assert [BreakerFailure(v)] + ([] + ([HealthSample(v, false)] + [CountedFailed])) == FailureEffects(v);
  }

  lemma {:induction false} AllTidy(account: string, scored: seq<Candidate>, d: string, first: Effect, second: Effect)
    requires Paired(d, first, second)
    ensures Tidy(AllEffects(account, scored), first, second) && Owed(AllEffects(account, scored), first, second) == 0
  {
    if scored != [] {
      AllTidy(account, scored[..|scored| - 1], d, first, second);
      AttemptTidy(account, scored[|scored| - 1], d, first, second);
      TidyConcat(AllEffects(account, scored[..|scored| - 1]), Effects(account, scored[|scored| - 1]), first, second);
    }
  }

  lemma {:induction false} ProcessTidy(m: Message, scored: seq<Candidate>, d: string, first: Effect, second: Effect)
    requires Paired(d, first, second)
    ensures var e := Process(m, scored).effects; Tidy(e, first, second) && Owed(e, first, second) == 0
  {
    hide Effects, Tidy, Owed;
    var failed := [CountedFailed, CountedProcessed(false)];
    NothingTidy(failed, first, second);
    NothingTidy([], first, second);
    if m.early == None && scored != [] {
      var k := FirstDelivered(scored);
      if k < |scored| {
        AllTidy(m.account, scored[..k + 1], d, first, second);
      } else {
        AllTidy(m.account, scored, d, first, second);
        TidyConcat(AllEffects(m.account, scored), if LastError(scored).Some? then failed else [], first, second);
      }
    }
  }

  lemma NothingTidy(metrics: seq<Effect>, first: Effect, second: Effect)
    requires metrics == [] || metrics == [CountedFailed, CountedProcessed(false)]
    requires exists d :: Paired(d, first, second)
    ensures Tidy(metrics, first, second) && Owed(metrics, first, second) == 0
  {
    assert Tidy([], first, second);
    assert metrics + [] == metrics;
    TidyNeutral(metrics, [], first, second);
  }

  function TotalOwed(rest: seq<seq<Effect>>, first: Effect, second: Effect): int {
    if rest == [] then 0
    else TotalOwed(rest[..|rest| - 1], first, second) + Owed(rest[|rest| - 1], first, second)
  }

  lemma {:induction false} TotalUpdate(rest: seq<seq<Effect>>, w: nat, e: seq<Effect>, first: Effect, second: Effect)
    requires w < |rest|
    ensures TotalOwed(rest[w := e], first, second)
            == TotalOwed(rest, first, second) - Owed(rest[w], first, second) + Owed(e, first, second)
  {
    var last := |rest| - 1;
    if w < last {
      TotalUpdate(rest[..last], w, e, first, second);
      assert rest[w := e][..last] == rest[..last][w := e];
    } else {
      assert rest[w := e][..last] == rest[..last];
    }
  }

  lemma {:induction false} TotalBound(rest: seq<seq<Effect>>, first: Effect, second: Effect)
    requires forall w :: 0 <= w < |rest| ==> Tidy(rest[w], first, second)
    ensures 0 <= TotalOwed(rest, first, second) <= |rest|
  {
    if rest != [] {
      TotalBound(rest[..|rest| - 1], first, second);
    }
  }

  ghost predicate Balanced(f: Floor, first: Effect, second: Effect) {
    && (forall w :: 0 <= w < |f.rest| ==> Tidy(f.rest[w], first, second))
    && N(f.trace, first) - N(f.trace, second) == TotalOwed(f.rest, first, second)
  }

  lemma StepBalanced(f: Floor, a: Action, d: string, first: Effect, second: Effect)
    requires Paired(d, first, second) && Balanced(f, first, second)
    ensures Balanced(Step(f, a), first, second)
  {
    if a.w < |f.rest| {
      var r := f.rest[a.w];
      assert Tidy(r, first, second);
      if a.Begin? && r == [] {
        ProcessTidy(a.m, a.scored, d, first, second);
        TotalUpdate(f.rest, a.w, Process(a.m, a.scored).effects, first, second);
      } else if a.Emit? && r != [] {
        TotalUpdate(f.rest, a.w, r[1..], first, second);
        assert r == [r[0]] + r[1..];
        OwedConcat([r[0]], r[1..], first, second);
        OwedConcat(f.trace, [r[0]], first, second);
      }
    }
  }

  lemma {:induction false} NobodyOwes(n: nat, first: Effect, second: Effect)
    ensures TotalOwed(seq(n, _ => []), first, second) == 0
  {
    if n > 0 {
      NobodyOwes(n - 1, first, second);
      var none: seq<seq<Effect>> := seq(n, _ => []);
      assert none[..n - 1] == seq(n - 1, _ => []);
    }
  }

  lemma {:induction false} RunBalanced(n: nat, acts: seq<Action>, d: string, first: Effect, second: Effect)
    requires Paired(d, first, second)
    ensures Balanced(Run(Workers(n), acts), first, second) && |Run(Workers(n), acts).rest| == n
  {
    if acts == [] {
      NobodyOwes(n, first, second);
      assert Tidy([], first, second);
    } else {
      RunBalanced(n, acts[..|acts| - 1], d, first, second);
      StepBalanced(Run(Workers(n), acts[..|acts| - 1]), acts[|acts| - 1], d, first, second);
    }
  }

  /** In every interleaving of `n` workers, each device's health history and breaker differ by at most
      one success and one failure per worker in mid-call, always in the same direction, and agree
      exactly whenever no call is in progress. */
  lemma HealthAndBreakerAgree(n: nat, acts: seq<Action>, d: string)
    ensures var f := Run(Workers(n), acts);
      && |f.rest| == n
      && 0 <= N(f.trace, HealthSample(d, true)) - N(f.trace, BreakerSuccess(d)) <= n
      && 0 <= N(f.trace, BreakerFailure(d)) - N(f.trace, HealthSample(d, false)) <= n
      && ((forall w :: 0 <= w < n ==> f.rest[w] == []) ==>
            && N(f.trace, HealthSample(d, true)) == N(f.trace, BreakerSuccess(d))
            && N(f.trace, HealthSample(d, false)) == N(f.trace, BreakerFailure(d)))
  {
    var f := Run(Workers(n), acts);
    RunBalanced(n, acts, d, HealthSample(d, true), BreakerSuccess(d));
    RunBalanced(n, acts, d, BreakerFailure(d), HealthSample(d, false));
    TotalBound(f.rest, HealthSample(d, true), BreakerSuccess(d));
    TotalBound(f.rest, BreakerFailure(d), HealthSample(d, false));
    if forall w :: 0 <= w < n ==> f.rest[w] == [] {
      assert f.rest == seq(n, _ => []);
      NobodyOwes(n, HealthSample(d, true), BreakerSuccess(d));
      NobodyOwes(n, BreakerFailure(d), HealthSample(d, false));
    }
  }
}
