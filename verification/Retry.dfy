// The per-request retry decision (crates/inference-remote-core/src/retry.rs).
module Retry {
  import opened Wrappers
  import opened Errors
  import opened Backoff

  datatype RetryPolicy = RetryPolicy(
    maxRetries: u32,
    initialBackoff: nat,
    maxBackoff: nat,
    multiplier: real,
    jitter: JitterKind,
    respectRetryAfter: bool)

  datatype RetryDecision = Retry(after: nat) | GiveUp

  datatype RetryEngine = RetryEngine(policy: RetryPolicy, idempotent: bool)

  function BackoffOf(p: RetryPolicy): BackoffPolicy {
    BackoffPolicy(p.initialBackoff, p.maxBackoff, p.multiplier, p.jitter)
  }

  // `attempt` is the number of the attempt that just failed, from zero.
  function Decide(engine: RetryEngine, attempt: nat, err: InferenceError): RetryDecision {
    if !engine.idempotent then GiveUp
    else if attempt >= engine.policy.maxRetries then GiveUp
    else if !IsRetryable(err) then GiveUp
    else if err.RateLimited? && err.retryAfter.Some? && engine.policy.respectRetryAfter then
      Retry(err.retryAfter.value)
    else
      Retry(ComputeBackoff(BackoffOf(engine.policy), attempt))
  }

  // The server's own Retry-After is what determines the wait.
  predicate HonoursServer(engine: RetryEngine, err: InferenceError) {
    err.RateLimited? && err.retryAfter.Some? && engine.policy.respectRetryAfter
  }

  // A retry is granted exactly when all three conditions hold, and waits no
  // longer than the configured maximum unless the server asked for its own delay.
  lemma RetryGranted(engine: RetryEngine, attempt: nat, err: InferenceError)
    ensures Decide(engine, attempt, err).Retry?
            <==> && engine.idempotent && attempt < engine.policy.maxRetries
                 && (err.RateLimited? || err.ServerError? || err.Timeout? || err.NetworkError?)
    ensures Decide(engine, attempt, err).Retry? ==>
              if err.RateLimited? && err.retryAfter.Some? && engine.policy.respectRetryAfter
              then Decide(engine, attempt, err).after == err.retryAfter.value
              else Decide(engine, attempt, err).after <= engine.policy.maxBackoff
  {
    if attempt < engine.policy.maxRetries {
      DelayAtMostMax(BackoffOf(engine.policy), attempt);
    }
  }

  // The wait is this many milliseconds, cut to a whole number of 64 bits.
  predicate Lasts(wait: nat, ms: real) {
    && wait % NANOS_PER_MILLI == 0
    && (ms < 0.0 ==> wait == 0)
    && (0.0 <= ms < U64_SPAN as real ==> (wait / NANOS_PER_MILLI) as real <= ms < (wait / NANOS_PER_MILLI) as real + 1.0)
    && (ms >= U64_SPAN as real ==> wait / NANOS_PER_MILLI == U64_SPAN - 1)
  }

  // initial * m^attempt milliseconds, or the maximum if that is less.
  function BaseMillis(p: RetryPolicy, attempt: nat): real {
    var term, max := GeometricTerm(p.initialBackoff / NANOS_PER_MILLI, p.multiplier, attempt),
                     (p.maxBackoff / NANOS_PER_MILLI) as real;
    if term <= max then term else max
  }

  lemma LastsWhole(ms: real)
    ensures Lasts(FromMillis(ToU64(ms)), ms)
  {
    WholeMillis(ToU64(ms));
  }

  lemma CappedIsBase(p: RetryPolicy, attempt: u32)
    requires attempt < SIGN_CHANGE
    ensures Capped(BackoffOf(p), attempt) == BaseMillis(p, attempt)
  {
    TermIsScaledPower(AsMillis(p.initialBackoff), p.multiplier, attempt);
  }

  // The base delay without jitter, a share r of it with full jitter, and half of it
  // plus half of such a share with equal jitter.
  function WithJitter(kind: JitterKind, base: real, r: real): real {
    match kind
    case NoJitter => base
    case Unknown => base
    case Full => r * base
    case Equal => (base + r * base) / 2.0
  }

  lemma JitterIsShare(kind: JitterKind, base: real, attempt: u32)
    ensures Jittered(kind, base, attempt) == WithJitter(kind, base, PseudoRandom01(attempt))
  {
    HalfAndHalf(base, PseudoRandom01(attempt));
  }

  lemma HalfAndHalf(c: real, r: real)
    ensures c * 0.5 + c * r * 0.5 == (c + r * c) / 2.0 && c * r == r * c
  {
  }

  lemma DecidesBackoff(engine: RetryEngine, attempt: u32, err: InferenceError, base: real)
    requires Decide(engine, attempt, err).Retry? && !HonoursServer(engine, err)
    requires base == Capped(BackoffOf(engine.policy), attempt)
    ensures Decide(engine, attempt, err).after == FromMillis(ToU64(Jittered(engine.policy.jitter, base, attempt)))
  {
  }

  // How long a granted retry waits unless the server said so, while the exponent
  // has not changed its sign.
  lemma RetryWaits(engine: RetryEngine, attempt: nat, err: InferenceError)
    requires Decide(engine, attempt, err).Retry? && !HonoursServer(engine, err) && attempt < SIGN_CHANGE
    ensures Lasts(Decide(engine, attempt, err).after,
                  WithJitter(engine.policy.jitter, BaseMillis(engine.policy, attempt), PseudoRandom01(attempt)))
  {
    var base := BaseMillis(engine.policy, attempt);
    CappedIsBase(engine.policy, attempt);
    DecidesBackoff(engine, attempt, err, base);
    LastsWhole(Jittered(engine.policy.jitter, base, attempt));
    JitterIsShare(engine.policy.jitter, base, attempt);
  }

  lemma ShareWithin(base: real, r: real)
    requires base >= 0.0 && 0.0 <= r <= 1.0
    ensures base / 2.0 <= WithJitter(Equal, base, r) <= base
  {
    ScaleBetween(base, 0.0, r);
    ScaleBetween(base, r, 1.0);
  }

  lemma LastsWithin(wait: nat, ms: real)
    requires Lasts(wait, ms) && 0.0 <= ms < U64_SPAN as real
    ensures (wait / NANOS_PER_MILLI) as real <= ms < (wait / NANOS_PER_MILLI) as real + 1.0
  {
  }

  // So with equal jitter at least half of the base delay is waited, and at most
  // all of it.
  lemma EqualJitterWaitsHalf(engine: RetryEngine, attempt: nat, err: InferenceError, ms: nat)
    requires Decide(engine, attempt, err).Retry? && !HonoursServer(engine, err) && attempt < SIGN_CHANGE
    requires engine.policy.jitter == Equal && 0.0 <= BaseMillis(engine.policy, attempt) < U64_SPAN as real
    requires ms == Decide(engine, attempt, err).after / NANOS_PER_MILLI
    ensures BaseMillis(engine.policy, attempt) / 2.0 < ms as real + 1.0 && ms as real <= BaseMillis(engine.policy, attempt)
  {
    var base, r := BaseMillis(engine.policy, attempt), PseudoRandom01(attempt);
    RetryWaits(engine, attempt, err);
    ShareWithin(base, r);
    LastsWithin(Decide(engine, attempt, err).after, WithJitter(Equal, base, r));
  }

  // What a worker sees of the engine: a bound and a decision per failure.
  datatype Decider = Decider(maxRetries: nat, decide: (nat, InferenceError) -> RetryDecision)

  ghost predicate Bounded(d: Decider) {
    forall attempt: nat, e :: d.decide(attempt, e).Retry? ==> attempt < d.maxRetries && IsRetryable(e)
  }

  type RetrySlot = d: Decider | Bounded(d) witness Decider(0, (attempt: nat, e: InferenceError) => GiveUp)

  function SlotOf(engine: RetryEngine): RetrySlot {
    var d := Decider(engine.policy.maxRetries, (attempt: nat, e: InferenceError) => Decide(engine, attempt, e));
    SlotIsBounded(engine, d);
    d
  }

  lemma SlotIsBounded(engine: RetryEngine, d: Decider)
    requires d.maxRetries == engine.policy.maxRetries
    requires forall attempt: nat, e :: d.decide(attempt, e) == Decide(engine, attempt, e)
    ensures Bounded(d)
  {
  }
}
