// integration-orchestrator.service.ts: the retry loop with its dead-letter list and back-off.
module IntegrationSend {
  import opened Options
  import opened IntegrationHealth

  datatype Backoff = EXPONENTIAL | LINEAR
  datatype RetryPolicy = RetryPolicy(maxAttempts: int, backoff: Backoff, initialDelayMs: int, maxDelayMs: int)

  /** What one `adapter.send` does. A thrown error may carry a `retryable` flag, and, when it
      comes out of a nested send, the `recorded` mark. */
  datatype AdapterReply =
    | Succeeds(operationId: string, latencyMs: int)
    | Reports(error: string, retryable: bool)
    | Throws(error: string, retryFlag: Option<bool>, recorded: bool)

  datatype DeadLetter = DeadLetter(adapterName: string, payload: string, attempt: nat, error: string)

  datatype SendResult = NotRegistered | CredentialsMissing | Sent(operationId: string) | SendFailed(error: string)

  datatype Books = Books(health: Health, deadLetters: seq<DeadLetter>)

  // ---------------------------------------------------------------- one attempt

  predicate Retryable(r: AdapterReply) {
    match r
    case Succeeds(_, _) => false
    case Reports(_, retryable) => retryable
    case Throws(_, flag, _) => flag != Some(false)
  }

  predicate AlreadyRecorded(r: AdapterReply) {
    r.Throws? && r.recorded
  }

  function AfterAttempt(h: Health, name: string, r: AdapterReply, now: Time): Health {
    if r.Succeeds? then AfterSuccess(h, name, r.latencyMs, now)
    else if AlreadyRecorded(r) then h
    else AfterFailure(h, name, now)
  }

  function BackoffDelay(p: RetryPolicy, attempt: nat): int
    requires attempt >= 1
  {
    var base := if p.backoff == EXPONENTIAL then p.initialDelayMs * Pow2(attempt - 1) else p.initialDelayMs * attempt;
    if base < p.maxDelayMs then base else p.maxDelayMs
  }

  function Pow2(n: nat): (p: nat)
    ensures p >= 1
  {
    if n == 0 then 1 else 2 * Pow2(n - 1)
  }

  function MaxAttempts(p: RetryPolicy): (n: nat)
    ensures n >= 1
  {
    if p.maxAttempts < 1 then 1 else p.maxAttempts
  }

  // ---------------------------------------------------------------- the whole send

  /** The attempt at which the loop stops, counting from `a`: the first that is not a
      retryable failure, at the latest number `max`. */
  function LastAttempt(behave: nat -> AdapterReply, max: nat, a: nat): (k: nat)
    requires 1 <= a <= max
    ensures a <= k <= max
    ensures forall i :: a <= i < k ==> Retryable(behave(i))
    ensures Retryable(behave(k)) ==> k == max
    decreases max - a
  {
    if a == max || !Retryable(behave(a)) then a else LastAttempt(behave, max, a + 1)
  }

  /** The books after attempts `a` to `k`. */
  function HealthAfter(h: Health, name: string, behave: nat -> AdapterReply, clock: nat -> Time, a: nat, k: nat): Health
    requires a <= k + 1
    decreases k + 1 - a
  {
    if a > k then h else HealthAfter(AfterAttempt(h, name, behave(a), clock(a)), name, behave, clock, a + 1, k)
  }

  /** The sleeps between attempts `a` and `k`. */
  function Slept(p: RetryPolicy, a: nat, k: nat): nat
    requires 1 <= a <= k
    decreases k - a
  {
    if a == k then 0
    else (if BackoffDelay(p, a) > 0 then BackoffDelay(p, a) else 0) + Slept(p, a + 1, k)
  }

  function ResultOf(r: AdapterReply): SendResult {
    if r.Succeeds? then Sent(r.operationId) else SendFailed(r.error)
  }

  class IntegrationOrchestrator {
    const healthService: IntegrationHealthService
    var adapters: map<string, RetryPolicy>
    var deadLetters: seq<DeadLetter>

    /** Registered adapters are known to the health service. */
    ghost predicate Valid()
      reads this, healthService
    {
      adapters.Keys <= healthService.statuses.Keys
    }

    constructor (healthService: IntegrationHealthService)
      ensures Valid()
      ensures this.healthService == healthService && adapters == map[] && deadLetters == []
    {
      this.healthService := healthService;
      adapters, deadLetters := map[], [];
    }

    method RegisterAdapter(name: string, policy: RetryPolicy, readiness: Readiness)
      requires Valid()
      modifies this, healthService
      ensures Valid()
      ensures deadLetters == old(deadLetters)
      ensures if name in old(adapters)
              then adapters == old(adapters) && healthService.View() == old(healthService.View())
              else adapters == old(adapters)[name := policy] &&
                   healthService.View() == AfterRegister(old(healthService.View()), name, readiness)
    {
      if name in adapters {
        return;
      }
      adapters := adapters[name := policy];
      healthService.Register(name, readiness);
    }

    /** What the health service is told about an attempt, before anything else happens. */
    method Record(name: string, reply: AdapterReply, now: Time)
      modifies healthService
      ensures healthService.View() == AfterAttempt(old(healthService.View()), name, reply, now)
    {
      match reply
      case Succeeds(_, latencyMs) => healthService.RecordSuccess(name, latencyMs, now);
      case Reports(_, _) => healthService.RecordFailure(name, now);
      case Throws(_, _, recorded) =>
        if !recorded {
          healthService.RecordFailure(name, now);
        }
    }

    /** `behave(i)` is what the adapter does on attempt i, `clock(i)` the time it is recorded;
        `slept` is the total back-off. Loop exits by `return` stand for `return` and `throw`;
        the one after the loop is shown to be unreachable. */
    method Send(name: string, payload: string, behave: nat -> AdapterReply, clock: nat -> Time)
      returns (r: SendResult, attempts: nat, slept: nat)
      requires Valid()
      modifies this, healthService
      ensures Valid() && adapters == old(adapters)
      ensures name !in adapters ==> r == NotRegistered
      ensures name in adapters && !Configured(old(healthService.View()), name) ==> r == CredentialsMissing
      ensures !(name in adapters && Configured(old(healthService.View()), name)) ==>
                attempts == 0 && slept == 0 && deadLetters == old(deadLetters) &&
                healthService.View() == old(healthService.View())
      ensures name in adapters && Configured(old(healthService.View()), name) ==>
                var max := if adapters[name].maxAttempts < 1 then 1 else adapters[name].maxAttempts;
                var last := behave(attempts);
                && 1 <= attempts <= max
                && (forall i :: 1 <= i <= attempts ==>
                      (i < attempts <==>
                         i < max && ((behave(i).Reports? && behave(i).retryable) ||
                                     (behave(i).Throws? && behave(i).retryFlag != Some(false)))))
                && r == (if last.Succeeds? then Sent(last.operationId) else SendFailed(last.error))
                && deadLetters == old(deadLetters) +
                   (if (last.Reports? && last.retryable) || (last.Throws? && last.retryFlag != Some(false))
                    then [DeadLetter(name, payload, max, last.error)] else [])
                && slept == Slept(adapters[name], 1, attempts)
                && healthService.View() ==
                   Run(old(healthService.View()), RecordedOps(name, behave, clock, 1, attempts))
                && name in old(healthService.statuses) && name in healthService.statuses
                && Accounted(old(healthService.statuses[name]), healthService.statuses[name], behave, max, attempts)
    {
      r, attempts, slept := NotRegistered, 0, 0;
      if name !in adapters {
        return;
      }
      var configured := healthService.HasConfiguredCredentials(name);
      if !configured {
        r := CredentialsMissing;
        return;
      }
      SendAccounting(healthService.View(), name, adapters[name], behave, clock);
      ghost var before := healthService.View();
      r, attempts, slept := SendWithRetries(name, payload, adapters[name], behave, clock);
      SendIsRun(before, name, behave, clock, 1, attempts);
    }

    /** The retry loop of `send`. */
    method SendWithRetries(
        name: string, payload: string, policy: RetryPolicy, behave: nat -> AdapterReply, clock: nat -> Time)
      returns (r: SendResult, attempts: nat, slept: nat)
      modifies this`deadLetters, healthService
      ensures attempts == LastAttempt(behave, MaxAttempts(policy), 1)
      ensures r == ResultOf(behave(attempts))
      ensures healthService.View() == HealthAfter(old(healthService.View()), name, behave, clock, 1, attempts)
      ensures var last := behave(attempts);
              deadLetters == old(deadLetters) +
              (if (last.Reports? && last.retryable) || (last.Throws? && last.retryFlag != Some(false))
               then [DeadLetter(name, payload, attempts, last.error)] else [])
      ensures slept == Slept(policy, 1, attempts)
    {
      hide BackoffDelay, AfterAttempt, Configured;
      slept := 0;
      var max := MaxAttempts(policy);
      ghost var k := LastAttempt(behave, max, 1);
      for attempt := 1 to max + 1
        invariant attempt <= max
        invariant deadLetters == old(deadLetters)
        invariant k == LastAttempt(behave, max, attempt)
        invariant HealthAfter(old(healthService.View()), name, behave, clock, 1, k) ==
                  HealthAfter(healthService.View(), name, behave, clock, attempt, k)
        invariant slept + Slept(policy, attempt, k) == Slept(policy, 1, k)
      {
        attempts := attempt;
        var reply := behave(attempt);
        r := ResultOf(reply);
        Record(name, reply, clock(attempt));
        match reply {
          case Succeeds(_, _) =>
            return;
          case Reports(_, retryable) =>
            if !retryable {
              return;
            }
          case Throws(error, flag, _) =>
            if flag == Some(false) {
              return;
            }
            if attempt >= max {
              deadLetters := deadLetters + [DeadLetter(name, payload, attempt, error)];
              return;
            }
        }
        if attempt >= max {
          deadLetters := deadLetters + [DeadLetter(name, payload, attempt, reply.error)];
          return;
        }
        assert attempt < max && Retryable(reply);
        assert k == LastAttempt(behave, max, attempt + 1);
        var delay := BackoffDelay(policy, attempt);
        assert Slept(policy, attempt, k) == (if delay > 0 then delay else 0) + Slept(policy, attempt + 1, k);
        if delay > 0 {
          slept := slept + delay;
        }
      }
      // The throw after the loop cannot be reached.
      assert false;
    }
  }

  // ---------------------------------------------------------------- accounting

  /** The calls of the health service that attempts `a` to `k` make: one for each attempt whose
      failure has not been recorded by a nested send. */
  function RecordedOps(name: string, behave: nat -> AdapterReply, clock: nat -> Time, a: nat, k: nat): seq<Op>
    requires a <= k + 1
    decreases k + 1 - a
  {
    if a > k then []
    else
      (match behave(a)
       case Succeeds(_, latencyMs) => [Op.Success(name, latencyMs, clock(a))]
       case Reports(_, _) => [Op.Failure(name, clock(a))]
       case Throws(_, _, recorded) => if recorded then [] else [Op.Failure(name, clock(a))])
      + RecordedOps(name, behave, clock, a + 1, k)
  }

  /** The attempts of a send are a run of the health service, so that all its books cover them. */
  lemma {:induction false} SendIsRun(
      h: Health, name: string, behave: nat -> AdapterReply, clock: nat -> Time, a: nat, k: nat)
    requires a <= k + 1
    ensures HealthAfter(h, name, behave, clock, a, k) == Run(h, RecordedOps(name, behave, clock, a, k))
    decreases k + 1 - a
  {
    hide AfterSuccess, AfterFailure;
    if a <= k {
      var ops := RecordedOps(name, behave, clock, a, k);
      SendIsRun(AfterAttempt(h, name, behave(a), clock(a)), name, behave, clock, a + 1, k);
      if AlreadyRecorded(behave(a)) {
        assert ops == [] + RecordedOps(name, behave, clock, a + 1, k) == RecordedOps(name, behave, clock, a + 1, k);
      } else {
        assert ops[1..] == RecordedOps(name, behave, clock, a + 1, k);
        assert AfterAttempt(h, name, behave(a), clock(a)) == Apply(h, ops[0]);
      }
    }
  }

  /** Attempts whose failure reached the loop already recorded. */
  function RecordedElsewhere(behave: nat -> AdapterReply, a: nat, k: nat): nat
    requires a <= k + 1
    decreases k + 1 - a
  {
    if a > k then 0 else (if AlreadyRecorded(behave(a)) then 1 else 0) + RecordedElsewhere(behave, a + 1, k)
  }

  function Failures(behave: nat -> AdapterReply, a: nat, k: nat): nat
    requires a <= k + 1
    decreases k + 1 - a
  {
    if a > k then 0 else (if behave(a).Succeeds? then 0 else 1) + Failures(behave, a + 1, k)
  }

  lemma {:induction false} CountersGrow(
      h: Health, name: string, behave: nat -> AdapterReply, clock: nat -> Time, a: nat, k: nat)
    requires name in h.statuses && a <= k + 1
    ensures var h' := HealthAfter(h, name, behave, clock, a, k);
            && h'.statuses.Keys == h.statuses.Keys
            && h'.statuses[name].totalFailures ==
                 h.statuses[name].totalFailures + Failures(behave, a, k) - RecordedElsewhere(behave, a, k)
            && h'.statuses[name].totalSuccesses ==
                 h.statuses[name].totalSuccesses + (k + 1 - a) - Failures(behave, a, k)
    decreases k + 1 - a
  {
    if a <= k {
      CountersGrow(AfterAttempt(h, name, behave(a), clock(a)), name, behave, clock, a + 1, k);
    }
  }

  lemma {:induction false} RetriedAllFailed(behave: nat -> AdapterReply, a: nat, k: nat)
    requires a <= k && forall i :: a <= i < k ==> Retryable(behave(i))
    ensures Failures(behave, a, k) == k - a + (if behave(k).Succeeds? then 0 else 1)
    decreases k - a
  {
    if a < k {
      RetriedAllFailed(behave, a + 1, k);
    } else {
      assert Failures(behave, k + 1, k) == 0;
    }
  }

  lemma {:induction false} NothingRecordedElsewhere(behave: nat -> AdapterReply, a: nat, k: nat)
    requires a <= k + 1
    ensures RecordedElsewhere(behave, a, k) == 0 <==> forall i :: a <= i <= k ==> !AlreadyRecorded(behave(i))
    decreases k + 1 - a
  {
    if a <= k {
      NothingRecordedElsewhere(behave, a + 1, k);
    }
  }

  /** How a send ends: the three endings exclude one another. */
  datatype Ending = Delivered | NonRetryable | Exhausted

  function EndingOf(r: AdapterReply): Ending {
    if r.Succeeds? then Delivered else if Retryable(r) then Exhausted else NonRetryable
  }

  predicate Grew(before: Status, after: Status, successes: int, failures: int) {
    && after.totalSuccesses == before.totalSuccesses + successes
    && after.totalFailures == before.totalFailures + failures
  }

  /** What a send of k attempts does to the counters. */
  ghost predicate Accounted(before: Status, after: Status, behave: nat -> AdapterReply, max: nat, k: nat) {
    && 1 <= k <= max
    && var elsewhere := RecordedElsewhere(behave, 1, k);
       match EndingOf(behave(k))
       case Delivered => Grew(before, after, 1, k - 1 - elsewhere)
       case NonRetryable => Grew(before, after, 0, k - elsewhere)
       case Exhausted => k == max && Grew(before, after, 0, k - elsewhere)
  }

  /** Send accounting, for every behaviour of the adapter and every maxAttempts: k attempts
      with 1 <= k <= max(1, maxAttempts); success after k - 1 failures, a non-retryable failure
      as the k-th failure, or exhaustion exactly at the maximum; and the status counters grow
      by one for each attempt that did not throw an error recorded before. No adapter loses its
      status on the way. */
  lemma {:induction false} SendAccounting(
      h: Health, name: string, p: RetryPolicy, behave: nat -> AdapterReply, clock: nat -> Time)
    requires name in h.statuses
    ensures var k := LastAttempt(behave, MaxAttempts(p), 1);
            var h' := HealthAfter(h, name, behave, clock, 1, k);
            && h'.statuses.Keys == h.statuses.Keys
            && Accounted(h.statuses[name], h'.statuses[name], behave, MaxAttempts(p), k)
  {
    var k := LastAttempt(behave, MaxAttempts(p), 1);
    CountersGrow(h, name, behave, clock, 1, k);
    RetriedAllFailed(behave, 1, k);
  }

  /** The counters grow by exactly the number of attempts if and only if no attempt threw an
      error already marked as recorded. */
  lemma CountersGrowByAttemptsIff(
      h: Health, name: string, p: RetryPolicy, behave: nat -> AdapterReply, clock: nat -> Time)
    requires name in h.statuses
    ensures var k := LastAttempt(behave, MaxAttempts(p), 1);
            var h' := HealthAfter(h, name, behave, clock, 1, k);
            name in h'.statuses &&
            (h'.statuses[name].totalSuccesses + h'.statuses[name].totalFailures ==
             h.statuses[name].totalSuccesses + h.statuses[name].totalFailures + k
             <==> forall i :: 1 <= i <= k ==> !AlreadyRecorded(behave(i)))
  {
    var k := LastAttempt(behave, MaxAttempts(p), 1);
    CountersGrow(h, name, behave, clock, 1, k);
    NothingRecordedElsewhere(behave, 1, k);
  }

  // ---------------------------------------------------------------- back-off

  lemma DelayGrows(p: RetryPolicy, a: nat)
    requires a >= 1 && p.initialDelayMs >= 0
    ensures BackoffDelay(p, a) <= BackoffDelay(p, a + 1)
  {
    assert Pow2(a) == 2 * Pow2(a - 1);
    var d, q := p.initialDelayMs, Pow2(a - 1);
    assert d * (2 * q) == d * q + d * q;
    assert d * q >= 0;
    assert d * (a + 1) == d * a + d;
  }

  /** Individual delays never decrease. */
  lemma {:induction false} DelaysMonotone(p: RetryPolicy, a: nat, b: nat)
    requires 1 <= a <= b && p.initialDelayMs >= 0
    ensures BackoffDelay(p, a) <= BackoffDelay(p, b)
    decreases b
  {
    if a < b {
      DelaysMonotone(p, a, b - 1);
      DelayGrows(p, b - 1);
    }
  }

  /** From the first attempt on whose uncapped delay reaches the cap, every delay is the cap. */
  lemma DelayStaysCapped(p: RetryPolicy, a: nat, b: nat)
    requires 1 <= a <= b && p.initialDelayMs >= 0
    requires p.maxDelayMs <= if p.backoff == EXPONENTIAL then p.initialDelayMs * Pow2(a - 1) else p.initialDelayMs * a
    ensures BackoffDelay(p, b) == p.maxDelayMs
  {
    assert BackoffDelay(p, a) == p.maxDelayMs;
    DelaysMonotone(p, a, b);
  }

  lemma {:induction false} SleptCapped(p: RetryPolicy, a: nat, k: nat)
    requires 1 <= a <= k && p.maxDelayMs >= 0
    ensures Slept(p, a, k) <= (k - a) * p.maxDelayMs
    decreases k - a
  {
    if a < k {
      SleptCapped(p, a + 1, k);
      assert (k - a) * p.maxDelayMs == (k - a - 1) * p.maxDelayMs + p.maxDelayMs;
    }
  }

  lemma Distributes(d: int, x: int, y: int)
    ensures d * (x + y) == d * x + d * y
  {
  }

  lemma ExponentialStep(p: RetryPolicy, a: nat)
    requires a >= 1 && p.initialDelayMs >= 0 && p.backoff == EXPONENTIAL
    ensures p.initialDelayMs * Pow2(a) == p.initialDelayMs * Pow2(a - 1) + p.initialDelayMs * Pow2(a - 1)
    ensures 0 <= p.initialDelayMs * Pow2(a - 1) && BackoffDelay(p, a) <= p.initialDelayMs * Pow2(a - 1)
    ensures BackoffDelay(p, a) < p.maxDelayMs ==> BackoffDelay(p, a) == p.initialDelayMs * Pow2(a - 1)
  {
    var d, q := p.initialDelayMs, Pow2(a - 1);
    assert Pow2(a) == q + q;
    Distributes(d, q, q);
  }

  lemma {:induction false} SleptExponential(p: RetryPolicy, a: nat, k: nat)
    requires 1 <= a <= k && p.initialDelayMs >= 0 && p.backoff == EXPONENTIAL
    ensures Slept(p, a, k) <= p.initialDelayMs * Pow2(k - 1) - p.initialDelayMs * Pow2(a - 1)
    decreases k - a
  {
    if a < k {
      hide Pow2, BackoffDelay;
      SleptExponential(p, a + 1, k);
      ExponentialStep(p, a);
    }
  }

  lemma {:induction false} SleptLinear(p: RetryPolicy, a: nat, k: nat)
    requires 1 <= a <= k && p.initialDelayMs >= 0 && p.backoff == LINEAR
    ensures 2 * Slept(p, a, k) <= p.initialDelayMs * (k * (k - 1)) - p.initialDelayMs * (a * (a - 1))
    decreases k - a
  {
    if a < k {
      SleptLinear(p, a + 1, k);
      LinearStep(p, a);
    }
  }

  lemma LinearStep(p: RetryPolicy, a: nat)
    requires a >= 1 && p.initialDelayMs >= 0 && p.backoff == LINEAR
    ensures p.initialDelayMs * ((a + 1) * a) == p.initialDelayMs * (a * (a - 1)) + 2 * (p.initialDelayMs * a)
    ensures 0 <= p.initialDelayMs * a && BackoffDelay(p, a) <= p.initialDelayMs * a
    ensures BackoffDelay(p, a) < p.maxDelayMs ==> BackoffDelay(p, a) == p.initialDelayMs * a
  {
    var d := p.initialDelayMs;
    assert (a + 1) * a == a * (a - 1) + 2 * a;
    Distributes(d, a * (a - 1), 2 * a);
    assert d * (2 * a) == 2 * (d * a);
  }

  /** The total back-off of a send of k attempts, with non-negative delays: at most (k - 1)
      times the cap, and at most the geometric or arithmetic sum of the uncapped delays. */
  lemma TotalBackoffBounds(p: RetryPolicy, k: nat)
    requires k >= 1 && p.initialDelayMs >= 0 && p.maxDelayMs >= 0
    ensures Slept(p, 1, k) <= (k - 1) * p.maxDelayMs
    ensures p.backoff == EXPONENTIAL ==> Slept(p, 1, k) <= p.initialDelayMs * (Pow2(k - 1) - 1)
    ensures p.backoff == LINEAR ==> 2 * Slept(p, 1, k) <= p.initialDelayMs * (k * (k - 1))
  {
    SleptCapped(p, 1, k);
    var d := p.initialDelayMs;
    if p.backoff == EXPONENTIAL {
      SleptExponential(p, 1, k);
      assert d * (Pow2(k - 1) - 1) == d * Pow2(k - 1) - d;
    } else {
      SleptLinear(p, 1, k);
    }
  }

  /** While the delay before the last attempt is still below the cap, those sums are what is
      slept. */
  lemma UncappedBackoff(p: RetryPolicy, k: nat)
    requires k >= 2 && p.initialDelayMs >= 0 && 0 <= BackoffDelay(p, k - 1) < p.maxDelayMs
    ensures p.backoff == EXPONENTIAL ==> Slept(p, 1, k) == p.initialDelayMs * (Pow2(k - 1) - 1)
    ensures p.backoff == LINEAR ==> 2 * Slept(p, 1, k) == p.initialDelayMs * (k * (k - 1))
  {
    if p.backoff == EXPONENTIAL {
      UncappedExponential(p, 1, k);
      Distributes(p.initialDelayMs, Pow2(k - 1), -1);
    } else {
      UncappedLinear(p, 1, k);
    }
  }

  lemma {:induction false} UncappedExponential(p: RetryPolicy, a: nat, k: nat)
    requires 1 <= a < k && p.initialDelayMs >= 0 && BackoffDelay(p, k - 1) < p.maxDelayMs && p.backoff == EXPONENTIAL
    ensures Slept(p, a, k) == p.initialDelayMs * Pow2(k - 1) - p.initialDelayMs * Pow2(a - 1)
    decreases k - a
  {
    hide Pow2, BackoffDelay;
    DelaysMonotone(p, a, k - 1);
    ExponentialStep(p, a);
    if a + 1 < k {
      UncappedExponential(p, a + 1, k);
    }
  }

  lemma {:induction false} UncappedLinear(p: RetryPolicy, a: nat, k: nat)
    requires 1 <= a < k && p.initialDelayMs >= 0 && BackoffDelay(p, k - 1) < p.maxDelayMs && p.backoff == LINEAR
    ensures 2 * Slept(p, a, k) == p.initialDelayMs * (k * (k - 1)) - p.initialDelayMs * (a * (a - 1))
    decreases k - a
  {
    DelaysMonotone(p, a, k - 1);
    LinearStep(p, a);
    if a + 1 < k {
      UncappedLinear(p, a + 1, k);
    }
  }
}
