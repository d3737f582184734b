/** What one dispatch call reports and leaves behind, spelled out by the answers of the gates. */
module DispatchReport {
  import opened Common
  import opened Dispatch

  /** Every gate lets the send be tried. */
  predicate Sends(k: Candidate) {
    !k.breakerOpen && k.throttle == Pass && k.rate == Pass && !k.simBlocked
  }

  predicate Gets(k: Candidate) {
    Sends(k) && k.connected && k.sendOk
  }

  /** The error of a candidate whose breaker is not open: the first gate that stopped it names it. */
  predicate IsErrorOf(e: Error, k: Candidate) {
    && (k.throttle == Fault ==> e == ThrottleFault)
    && (k.throttle == Deny ==> e == Throttled(k.carrier))
    && (k.throttle == Pass ==>
          && (k.rate == Fault ==> e == RateFault)
          && (k.rate == Deny ==> e == RateExceeded(k.device))
          && (k.rate == Pass && k.simBlocked ==> e == SimBlocked(k.device))
          && (k.rate == Pass && !k.simBlocked && !k.connected ==> e == Disconnected)
          && (k.rate == Pass && !k.simBlocked && k.connected && !k.sendOk ==> e == SendFailed))
  }

  /** The candidate at `i` is the last whose breaker was not open. */
  ghost predicate IsLastTried(scored: seq<Candidate>, i: int) {
    0 <= i < |scored| && !scored[i].breakerOpen && forall j :: i < j < |scored| ==> scored[j].breakerOpen
  }

  lemma TryIs(k: Candidate)
    requires !Gets(k)
    ensures if k.breakerOpen then Try(k) == Skipped else Try(k).Failed? && IsErrorOf(Try(k).error, k)
  {
  }

  lemma LastErrorNext(scored: seq<Candidate>)
    requires scored != []
    ensures LastError(scored) == match Try(scored[|scored| - 1])
                                 case Failed(e) => Some(e)
                                 case _ => LastError(scored[..|scored| - 1])
  {
  }

  lemma LastTriedNext(scored: seq<Candidate>, i: int)
    requires scored != [] && scored[|scored| - 1].breakerOpen && IsLastTried(scored[..|scored| - 1], i)
    ensures IsLastTried(scored, i) && scored[..|scored| - 1][i] == scored[i]
  {
  }

  lemma {:induction false} LastErrorIs(scored: seq<Candidate>)
    requires forall i :: 0 <= i < |scored| ==> !Gets(scored[i])
    ensures LastError(scored).Some? ==>
      exists i :: IsLastTried(scored, i) && IsErrorOf(LastError(scored).value, scored[i])
    ensures LastError(scored).None? <==> forall i :: 0 <= i < |scored| ==> scored[i].breakerOpen
  {
    hide Gets, Try, IsErrorOf;
    if scored != [] {
      var n := |scored| - 1;
      var before := scored[..n];
      TryIs(scored[n]);
      LastErrorNext(scored);
      hide LastError;
      if scored[n].breakerOpen {
        LastErrorIs(before);
        if LastError(before).Some? {
          var i :| IsLastTried(before, i) && IsErrorOf(LastError(before).value, before[i]);
          LastTriedNext(scored, i);
        }
      } else {
        assert IsLastTried(scored, n);
      }
    }
  }

  lemma NobodyDelivers(scored: seq<Candidate>)
    requires forall i :: 0 <= i < |scored| ==> !Gets(scored[i])
    ensures FirstDelivered(scored) == |scored|
  {
  }

  /** When nobody gets the message through, the call reports what stopped the last candidate tried, and no
      error only if every breaker was open. */
  lemma ReportsLastError(m: Message, scored: seq<Candidate>)
    requires m.early == None && scored != [] && forall i :: 0 <= i < |scored| ==> !Gets(scored[i])
    ensures var error := Process(m, scored).error;
      if forall i :: 0 <= i < |scored| ==> scored[i].breakerOpen then error == None
      else error.Some? && exists i :: IsLastTried(scored, i) && IsErrorOf(error.value, scored[i])
  {
    NobodyDelivers(scored);
    LastErrorIs(scored);
  }

  // ---- what is left behind ----

  /** What one candidate leaves behind, once each. */
  predicate Leaves(account: string, k: Candidate, e: Effect) {
    match e
    case HealthUpdate(d) => Sends(k) && d == k.device && k.healthChanged
    case Publish(d, ok) => Sends(k) && d == k.device && k.connected && ok == k.sendOk
    case BreakerFailure(d) => Sends(k) && d == k.device && !Gets(k)
    case BreakerSuccess(d) => d == k.device && Gets(k)
    case HealthSample(d, success) => Sends(k) && d == k.device && success == Gets(k)
    case DeliveryStatus => Gets(k)
    case DeviceAssigned(d) => d == k.device && Gets(k)
    case DeviceCounter(d) => d == k.device && Gets(k)
    case ThrottleCounter(carrier) => carrier == k.carrier && Gets(k)
    case Sent(d) => d == k.device && Gets(k)
    case Usage(a) => a == account && Gets(k)
    case CountedFailed => Sends(k) && !Gets(k)
    case CountedDelivered => Gets(k)
    case CountedProcessed(ok) => ok && Gets(k)
  }

  function LeavesOf(account: string, e: Effect): Candidate -> bool {
    (k: Candidate) => Leaves(account, k, e)
  }

  lemma AttemptLeaves(account: string, k: Candidate, e: Effect)
    ensures N(Effects(account, k), e) == Bit(Leaves(account, k, e))
  {
    hide N, Lead, SuccessEffects, FailureEffects;
    if !Sends(k) {
      Nothing(e);
    } else if Gets(k) {
      AddCounts(Lead(k), SuccessEffects(account, k.device, k.carrier), e);
      LeadCounts(k, e);
      SuccessCounts(account, k.device, k.carrier, e);
    } else {
      AddCounts(Lead(k), FailureEffects(k.device), e);
      LeadCounts(k, e);
      FailureCounts(k.device, e);
    }
  }

  lemma Nothing(e: Effect)
    ensures N([], e) == 0
  {
  }

  lemma {:induction false} AllLeave(account: string, scored: seq<Candidate>, e: Effect)
    ensures N(AllEffects(account, scored), e) == CountWhere(scored, LeavesOf(account, e))
  {
    hide N, Effects, Leaves;
    if scored == [] {
      Nothing(e);
    } else {
      var n := |scored| - 1;
      AllLeave(account, scored[..n], e);
      AttemptLeaves(account, scored[n], e);
      AddCounts(AllEffects(account, scored[..n]), Effects(account, scored[n]), e);
    }
  }

  /** The first `n` candidates are looked at: up to the first that gets the message through, or all. */
  ghost predicate LookedAt(scored: seq<Candidate>, n: nat) {
    && n <= |scored|
    && (forall i :: 0 <= i < n - 1 ==> !Gets(scored[i]))
    && (n == |scored| || (n > 0 && Gets(scored[n - 1])))
  }

  /** What a call that comes to the loop leaves behind: exactly what each candidate looked at leaves, and two
      metrics when all that were tried failed. */
  lemma CallLeaves(m: Message, scored: seq<Candidate>, n: nat, e: Effect)
    requires m.early == None && scored != [] && LookedAt(scored, n)
    ensures var failed := !Gets(scored[n - 1]) && exists i :: 0 <= i < n && !scored[i].breakerOpen;
      N(Process(m, scored).effects, e) == CountWhere(scored[..n], LeavesOf(m.account, e))
        + Bit(failed && (e == CountedFailed || e == CountedProcessed(false)))
  {
    hide N, AllEffects, LastError;
    AllLeave(m.account, scored[..n], e);
    if Gets(scored[n - 1]) {
      FirstIs(scored, n - 1);
    } else {
      NobodyDelivers(scored);
      LastErrorIs(scored);
      assert scored[..n] == scored;
      var tail := if LastError(scored).Some? then [CountedFailed, CountedProcessed(false)] else [];
      AddCounts(AllEffects(m.account, scored), tail, e);
      TailCounts(tail, e);
    }
  }

  lemma TailCounts(tail: seq<Effect>, e: Effect)
    requires tail == [] || tail == [CountedFailed, CountedProcessed(false)]
    ensures N(tail, e) == Bit(tail != [] && (e == CountedFailed || e == CountedProcessed(false)))
  {
  }

  /** Candidates are worked off in order. */
  lemma {:induction false} EffectsInOrder(account: string, first: seq<Candidate>, later: seq<Candidate>)
    ensures AllEffects(account, first + later) == AllEffects(account, first) + AllEffects(account, later)
  {
    hide Effects;
    if later == [] {
      assert first + later == first;
    } else {
      var n := |later| - 1;
      EffectsInOrder(account, first, later[..n]);
      assert (first + later)[..|first| + n] == first + later[..n];
      assert (first + later)[|first| + n] == later[n];
      Assoc(AllEffects(account, first), AllEffects(account, later[..n]), Effects(account, later[n]));
    }
  }
}
