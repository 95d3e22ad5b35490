// The circuit breaker (crates/inference-remote-core/src/circuit_breaker.rs).
// Clock readings are nanoseconds since the handle was created; every method
// that consults the clock takes its reading as a parameter.
module Breaker {
  import opened Wrappers
  import opened Errors

  datatype CircuitState = Closed | Open | HalfOpen

  // `half_open_max_probes` is never read and has no counterpart here.
  datatype Config = Config(failureThreshold: u32, openDuration: nat)

  // `openedAt == 0` means "not open".
  datatype BreakerState = BreakerState(failures: u32, openedAt: u64, forcedUntil: Option<nat>)

  // `as_nanos() as u64`
  function AsU64(n: nat): u64 {
    n % U64_SPAN
  }

  function SaturatingSub(a: nat, b: nat): nat {
    if a < b then 0 else a - b
  }

  predicate Forced(b: BreakerState, now: nat) {
    b.forcedUntil.Some? && now < b.forcedUntil.value
  }

  function BaseState(c: Config, openedAt: u64, now: nat): CircuitState {
    if openedAt == 0 then Closed
    else if SaturatingSub(AsU64(now), openedAt) >= AsU64(c.openDuration) then HalfOpen
    else Open
  }

  function StateAt(c: Config, b: BreakerState, now: nat): CircuitState {
    if Forced(b, now) then Open else BaseState(c, b.openedAt, now)
  }

  function Refusal(c: Config, b: BreakerState, now: nat, unixMs: u64): InferenceError {
    var elapsedMs := SaturatingSub(AsU64(now), b.openedAt) / NANOS_PER_MILLI;
    var openedMs := (unixMs - elapsedMs) % U64_SPAN;
    var retryMs := openedMs + c.openDuration / NANOS_PER_MILLI;
    CircuitOpen(openedMs, if retryMs < U64_SPAN then retryMs else U64_SPAN - 1)
  }

  function AfterSuccess(b: BreakerState): BreakerState {
    b.(failures := 0, openedAt := 0)
  }

  function AfterFailure(c: Config, b: BreakerState, now: nat): BreakerState {
    var n := (b.failures + 1) % U32_SPAN;
    b.(failures := n, openedAt := if n >= c.failureThreshold && b.openedAt == 0 then AsU64(now) else b.openedAt)
  }

  function AfterForce(b: BreakerState, now: nat, duration: nat): BreakerState {
    b.(forcedUntil := Some(now + duration))
  }

  class CircuitBreaker {
    const config: Config
    var failures: u32
    var openedAt: u64
    var forcedUntil: Option<nat>

    function State(): BreakerState
      reads this
    {
      BreakerState(failures, openedAt, forcedUntil)
    }

    constructor (config: Config)
      ensures this.config == config && State() == BreakerState(0, 0, None)
    {
      this.config := config;
      failures, openedAt, forcedUntil := 0, 0, None;
    }

    method CurrentState(now: nat) returns (s: CircuitState)
      ensures s == StateAt(config, State(), now)
    {
      if forcedUntil.Some? {
        if now < forcedUntil.value {
          return Open;
        }
      }
      if openedAt == 0 {
        return Closed;
      }
      s := if SaturatingSub(AsU64(now), openedAt) >= AsU64(config.openDuration) then HalfOpen else Open;
    }

    method Check(now: nat, unixMs: u64) returns (r: Result<(), InferenceError>)
      ensures r == if StateAt(config, State(), now) == Open then Err(Refusal(config, State(), now, unixMs)) else Ok(())
    {
      var s := CurrentState(now);
      match s {
        case Closed => r := Ok(());
        case HalfOpen => r := Ok(());
        case Open => r := Err(Refusal(config, State(), now, unixMs));
      }
    }

    method RecordSuccess()
      modifies this
      ensures State() == AfterSuccess(old(State()))
    {
      failures := 0;
      openedAt := 0;
    }

    method RecordFailure(now: nat)
      modifies this
      ensures State() == AfterFailure(config, old(State()), now)
    {
      failures := (failures + 1) % U32_SPAN;
      if failures >= config.failureThreshold && openedAt == 0 {
        openedAt := AsU64(now);
      }
    }

    method ForceOpen(now: nat, duration: nat)
      modifies this
      ensures State() == AfterForce(old(State()), now, duration)
    {
      forcedUntil := Some(now + duration);
    }

    // `outcome` is what the wrapped call would answer; it is made only when the
    // gate lets it through, and only errors that count are held against the circuit.
    method Run<T>(before: nat, unixMs: u64, outcome: Result<T, InferenceError>, after: nat)
      returns (r: Result<T, InferenceError>)
      modifies this
      ensures StateAt(config, old(State()), before) == Open ==>
                r == Err(Refusal(config, old(State()), before, unixMs)) && State() == old(State())
      ensures StateAt(config, old(State()), before) != Open ==>
                && r == outcome
                && State() == (if outcome.Ok? then AfterSuccess(old(State()))
                               else if outcome.error.ServerError? || outcome.error.Timeout? || outcome.error.NetworkError?
                               then AfterFailure(config, old(State()), after)
                               else old(State()))
    {
      var gate := Check(before, unixMs);
      if gate.Err? {
        return Err(gate.error);
      }
      match outcome {
        case Ok(_) => RecordSuccess();
        case Err(e) =>
          if CountsAsCircuitFailure(e) {
            RecordFailure(after);
          }
      }
      r := outcome;
    }
  }

  // ---- Histories -----------------------------------------------------------

  datatype Event = Success | Failure(at: nat) | Force(at: nat, duration: nat)

  function Apply(c: Config, b: BreakerState, e: Event): BreakerState {
    match e
    case Success => AfterSuccess(b)
    case Failure(at) => AfterFailure(c, b, at)
    case Force(at, d) => AfterForce(b, at, d)
  }

  function Replay(c: Config, h: seq<Event>): BreakerState {
    if h == [] then BreakerState(0, 0, None) else Apply(c, Replay(c, h[..|h| - 1]), h[|h| - 1])
  }

  // Times of the failures recorded since the last success.
  function FailuresSince(h: seq<Event>): seq<nat> {
    if h == [] then []
    else
      var rest := h[..|h| - 1];
      match h[|h| - 1]
      case Success => []
      case Failure(at) => FailuresSince(rest) + [at]
      case Force(_, _) => FailuresSince(rest)
  }

  // Expiry of the last force-open.
  function LastForce(h: seq<Event>): Option<nat> {
    if h == [] then None
    else if h[|h| - 1].Force? then Some(h[|h| - 1].at + h[|h| - 1].duration)
    else LastForce(h[..|h| - 1])
  }

  // A threshold of zero is met by the first failure, like a threshold of one.
  function Threshold(c: Config): nat {
    if c.failureThreshold == 0 then 1 else c.failureThreshold
  }

  // The breaker opens at the threshold-th failure since the last success.
  function OpeningTime(c: Config, h: seq<Event>): Option<nat> {
    var fs := FailuresSince(h);
    if Threshold(c) <= |fs| then Some(fs[Threshold(c) - 1]) else None
  }

  // Nanoseconds between two readings of the 64-bit clock.
  function Elapsed(from: nat, now: nat): nat {
    SaturatingSub(AsU64(now), AsU64(from))
  }

  // The state a history stands for: nothing here knows of stamps or sentinels.
  function HistoryState(c: Config, h: seq<Event>, now: nat): CircuitState {
    if LastForce(h).Some? && now < LastForce(h).value then Open
    else
      match OpeningTime(c, h)
      case None => Closed
      case Some(t) => if Elapsed(t, now) >= AsU64(c.openDuration) then HalfOpen else Open
  }

  // Counting with wrap-around counts modulo 2^32.
  lemma WrappingCount(n: nat)
    ensures (n % U32_SPAN + 1) % U32_SPAN == (n + 1) % U32_SPAN
  {
  }

  lemma {:induction false} CounterAndForce(c: Config, h: seq<Event>)
    ensures Replay(c, h).failures == |FailuresSince(h)| % U32_SPAN
    ensures Replay(c, h).forcedUntil == LastForce(h)
  {
    if h != [] {
      CounterAndForce(c, h[..|h| - 1]);
      WrappingCount(|FailuresSince(h[..|h| - 1])|);
    }
  }

  // The k-th failure since a success finds the (wrapping) counter at the threshold.
  predicate Stamps(c: Config, k: nat) {
    k % U32_SPAN >= c.failureThreshold
  }

  // Of the failures with numbers above `before`, the first that is recorded at
  // or above the threshold and at a clock reading other than zero.
  function FirstStamp(c: Config, fs: seq<nat>, before: nat): Option<nat>
    decreases |fs|
  {
    if fs == [] then None
    else if Stamps(c, before + 1) && AsU64(fs[0]) != 0 then Some(fs[0])
    else FirstStamp(c, fs[1..], before + 1)
  }

  lemma {:induction false} FirstStampSnoc(c: Config, fs: seq<nat>, x: nat, before: nat)
    ensures FirstStamp(c, fs + [x], before)
         == if FirstStamp(c, fs, before).Some? then FirstStamp(c, fs, before)
            else if Stamps(c, before + |fs| + 1) && AsU64(x) != 0 then Some(x) else None
    decreases |fs|
  {
    if fs != [] {
      assert (fs + [x])[1..] == fs[1..] + [x];
      FirstStampSnoc(c, fs[1..], x, before + 1);
    } else {
      assert [x][1..] == [];
    }
  }

  lemma {:induction false} FirstStampIsNonzero(c: Config, fs: seq<nat>, before: nat)
    ensures FirstStamp(c, fs, before).Some? ==> AsU64(FirstStamp(c, fs, before).value) != 0
    decreases |fs|
  {
    if fs != [] {
      FirstStampIsNonzero(c, fs[1..], before + 1);
    }
  }

  // For every history: what the stamp holds.
  lemma {:induction false} StampIsFirst(c: Config, h: seq<Event>)
    ensures var first := FirstStamp(c, FailuresSince(h), 0);
            Replay(c, h).openedAt == (if first.Some? then AsU64(first.value) else 0)
  {
    if h != [] {
      var n := |h| - 1;
      var fs := FailuresSince(h[..n]);
      StampIsFirst(c, h[..n]);
      CounterAndForce(c, h[..n]);
      FirstStampIsNonzero(c, fs, 0);
      if h[n].Failure? {
        FirstStampSnoc(c, fs, h[n].at, 0);
        WrappingCount(|fs|);
      }
    }
  }

  lemma {:induction false} NoStampBelow(c: Config, fs: seq<nat>, before: nat)
    requires before + |fs| < Threshold(c)
    ensures FirstStamp(c, fs, before) == None
    decreases |fs|
  {
    if fs != [] {
      NoStampBelow(c, fs[1..], before + 1);
    }
  }

  lemma {:induction false} StampAtThreshold(c: Config, fs: seq<nat>, before: nat)
    requires before < Threshold(c) <= before + |fs|
    requires AsU64(fs[Threshold(c) - before - 1]) != 0
    ensures FirstStamp(c, fs, before) == Some(fs[Threshold(c) - before - 1])
    decreases |fs|
  {
    if before + 1 < Threshold(c) {
      StampAtThreshold(c, fs[1..], before + 1);
    }
  }

  // The stamp is the time of the threshold-th failure since the last success,
  // whatever else was recorded, exactly when that failure's clock reading is not
  // the zero that means "not open".
  lemma StampIsThresholdFailure(c: Config, h: seq<Event>)
    ensures OpeningTime(c, h).None? ==> Replay(c, h).openedAt == 0
    ensures OpeningTime(c, h).Some? ==>
              (Replay(c, h).openedAt != 0 && Replay(c, h).openedAt == AsU64(OpeningTime(c, h).value)
               <==> AsU64(OpeningTime(c, h).value) != 0)
  {
    var fs := FailuresSince(h);
    StampIsFirst(c, h);
    if OpeningTime(c, h).None? {
      NoStampBelow(c, fs, 0);
    } else if AsU64(OpeningTime(c, h).value) != 0 {
      StampAtThreshold(c, fs, 0);
    }
  }

  // The opening failure left no stamp.
  predicate OpenedAtZero(c: Config, h: seq<Event>) {
    OpeningTime(c, h).Some? && AsU64(OpeningTime(c, h).value) == 0
  }

  // Refinement, exactly: the breaker answers what the history says, except after
  // an opening failure read at nanosecond zero and with no force-open running.
  // Then it agrees only if a later failure stamped it after all, and only while
  // both that stamp and the clock's origin are inside, or both outside, the open
  // duration.
  lemma BreakerRefinesHistory(c: Config, h: seq<Event>, now: nat)
    ensures StateAt(c, Replay(c, h), now) == HistoryState(c, h, now)
       <==> || (LastForce(h).Some? && now < LastForce(h).value)
            || !OpenedAtZero(c, h)
            || (FirstStamp(c, FailuresSince(h), 0).Some?
                && (AsU64(now) < AsU64(c.openDuration)
                    || Elapsed(FirstStamp(c, FailuresSince(h), 0).value, now) >= AsU64(c.openDuration)))
  {
    CounterAndForce(c, h);
    StampIsFirst(c, h);
    StampIsThresholdFailure(c, h);
    FirstStampIsNonzero(c, FailuresSince(h), 0);
  }

  lemma StampedInTime(c: Config, h: seq<Event>, now: nat)
    requires now < U64_SPAN && (OpeningTime(c, h).Some? ==> 0 < OpeningTime(c, h).value <= now)
    ensures !OpenedAtZero(c, h)
  {
  }

  lemma HistoryBeforeTheClockWraps(c: Config, h: seq<Event>, now: nat)
    requires now < U64_SPAN && c.openDuration < U64_SPAN
    requires OpeningTime(c, h).Some? ==> OpeningTime(c, h).value <= now
    ensures HistoryState(c, h, now) == PlainState(c, OpeningTime(c, h), LastForce(h), now)
  {
  }

  // The state in unbounded arithmetic.
  function PlainState(c: Config, opening: Option<nat>, force: Option<nat>, now: nat): CircuitState {
    if force.Some? && now < force.value then Open
    else
      match opening
      case None => Closed
      case Some(t) => if now - t >= c.openDuration then HalfOpen else Open
  }

  // Failures one after another.
  function Failures(ts: seq<nat>): seq<Event> {
    seq(|ts|, i requires 0 <= i < |ts| => Failure(ts[i]))
  }

  lemma {:induction false} FailuresAfterSuccess(h: seq<Event>, ts: seq<nat>)
    ensures var all := h + [Success] + Failures(ts);
            FailuresSince(all) == ts && LastForce(all) == LastForce(h)
  {
    var all := h + [Success] + Failures(ts);
    if ts == [] {
      assert all == h + [Success] && all[..|all| - 1] == h;
    } else {
      var n := |ts| - 1;
      FailuresAfterSuccess(h, ts[..n]);
      assert all[..|all| - 1] == h + [Success] + Failures(ts[..n]);
      assert ts[..n] + [ts[n]] == ts;
    }
  }

  // The circuit as configured: closed until the threshold-th failure after a
  // success, open for the open duration from then on, half-open ever after.
  lemma OpensAtTheThreshold(c: Config, h: seq<Event>, ts: seq<nat>, now: nat)
    requires 0 < c.failureThreshold && c.openDuration < U64_SPAN && now < U64_SPAN
    requires forall i :: 0 <= i < |ts| ==> 0 < ts[i] <= now
    requires LastForce(h).Some? ==> LastForce(h).value <= now
    ensures StateAt(c, Replay(c, h + [Success] + Failures(ts)), now)
            == if |ts| < c.failureThreshold then Closed
               else if now < ts[c.failureThreshold - 1] + c.openDuration then Open
               else HalfOpen
  {
    FailuresAfterSuccess(h, ts);
    StateBeforeTheClockWraps(c, h + [Success] + Failures(ts), now);
  }

  // A force-open holds the breaker open until its time is over, and then no more.
  lemma ForceHolds(c: Config, h: seq<Event>, at: nat, duration: nat, now: nat)
    ensures var b := Replay(c, h + [Force(at, duration)]);
            && (now < at + duration ==> StateAt(c, b, now) == Open)
            && (now >= at + duration ==> StateAt(c, b, now) == StateAt(c, Replay(c, h).(forcedUntil := None), now))
  {
    assert (h + [Force(at, duration)])[..|h|] == h;
  }

  // In plain arithmetic: until the 64-bit clock wraps, and unless the opening
  // failure came at nanosecond zero, a breaker without a force-open is half-open
  // once the open duration has passed since the threshold-th failure.
  lemma StateBeforeTheClockWraps(c: Config, h: seq<Event>, now: nat)
    requires now < U64_SPAN && c.openDuration < U64_SPAN
    requires OpeningTime(c, h).Some? ==> 0 < OpeningTime(c, h).value <= now
    ensures StateAt(c, Replay(c, h), now) == PlainState(c, OpeningTime(c, h), LastForce(h), now)
  {
    StampedInTime(c, h, now);
    BreakerRefinesHistory(c, h, now);
    HistoryBeforeTheClockWraps(c, h, now);
  }

  // The exception is real.  After one failure read at nanosecond zero, threshold
  // one, the breaker is closed; after a second one it counts from the wrong one.
  lemma StampZeroBreaksRefinement(d: nat, now: nat)
    requires 0 < d < U64_SPAN - 5
    ensures StateAt(Config(1, d), Replay(Config(1, d), [Failure(0)]), now) == Closed
         != HistoryState(Config(1, d), [Failure(0)], now)
    ensures var h := [Failure(0), Failure(5)];
            && StateAt(Config(1, d), Replay(Config(1, d), h), d + 4) == Open
            && HistoryState(Config(1, d), h, d + 4) == HalfOpen
  {
    var c, h := Config(1, d), [Failure(0), Failure(5)];
    assert [Failure(0)][..0] == [] && h[..1] == [Failure(0)];
    assert FailuresSince([Failure(0)]) == [0];
    assert FailuresSince(h) == [0, 5];
    assert LastForce([Failure(0)]) == None && LastForce(h) == None;
    assert Replay(c, [Failure(0)]) == BreakerState(1, 0, None);
    assert Replay(c, h) == BreakerState(2, 5, None);
  }

  ghost predicate OnlyFailures(h: seq<Event>) {
    forall i :: 0 <= i < |h| ==> h[i].Failure?
  }

  // Once open, further failures change nothing but the counter.
  lemma {:induction false} FailuresDoNotMoveTheStamp(c: Config, h: seq<Event>, more: seq<Event>)
    requires OnlyFailures(more) && Replay(c, h).openedAt != 0
    ensures Replay(c, h + more).openedAt == Replay(c, h).openedAt
    ensures Replay(c, h + more).forcedUntil == Replay(c, h).forcedUntil
    decreases |more|
  {
    if more == [] {
      assert h + more == h;
    } else {
      var n := |more| - 1;
      assert (h + more)[..|h + more| - 1] == h + more[..n];
      FailuresDoNotMoveTheStamp(c, h, more[..n]);
    }
  }

  // Half-open lasts as long as the stamp does.
  lemma HalfOpenLasts(c: Config, b: BreakerState, b': BreakerState, now: nat, later: nat)
    requires now <= later < U64_SPAN && StateAt(c, b, now) == HalfOpen
    requires b'.openedAt == b.openedAt && b'.forcedUntil == b.forcedUntil
    ensures StateAt(c, b', later) == HalfOpen
  {
  }

  // So a half-open breaker stays half-open through any number of failed probes.
  lemma HalfOpenSurvivesFailedProbes(c: Config, h: seq<Event>, more: seq<Event>, now: nat, later: nat)
    requires OnlyFailures(more) && now <= later < U64_SPAN
    requires StateAt(c, Replay(c, h), now) == HalfOpen
    ensures StateAt(c, Replay(c, h + more), later) == HalfOpen
  {
    FailuresDoNotMoveTheStamp(c, h, more);
    HalfOpenLasts(c, Replay(c, h), Replay(c, h + more), now, later);
  }

  // ---- Expired force-opens -------------------------------------------------

  predicate Expired(e: Event, now: nat) {
    e.Force? && e.at + e.duration <= now
  }

  function EraseExpired(h: seq<Event>, now: nat): seq<Event> {
    if h == [] then []
    else
      var rest := EraseExpired(h[..|h| - 1], now);
      if Expired(h[|h| - 1], now) then rest else rest + [h[|h| - 1]]
  }

  ghost predicate SomeForceRunning(h: seq<Event>, now: nat) {
    exists i :: 0 <= i < |h| && h[i].Force? && !Expired(h[i], now)
  }

  predicate SameCircuit(b: BreakerState, e: BreakerState) {
    b.failures == e.failures && b.openedAt == e.openedAt
  }

  lemma ApplyKeepsSameCircuit(c: Config, b: BreakerState, b': BreakerState, e: Event)
    requires SameCircuit(b, b')
    ensures SameCircuit(Apply(c, b, e), Apply(c, b', e))
    ensures e.Force? ==> SameCircuit(Apply(c, b, e), b')
  {
  }

  lemma ReplaySnoc(c: Config, h: seq<Event>, e: Event)
    ensures Replay(c, h + [e]) == Apply(c, Replay(c, h), e)
  {
    assert (h + [e])[..|h|] == h;
  }

  lemma {:induction false} ErasingKeepsCircuit(c: Config, h: seq<Event>, now: nat)
    ensures SameCircuit(Replay(c, h), Replay(c, EraseExpired(h, now)))
  {
    if h != [] {
      var n := |h| - 1;
      var rest := EraseExpired(h[..n], now);
      ErasingKeepsCircuit(c, h[..n], now);
      ReplaySnoc(c, rest, h[n]);
      ApplyKeepsSameCircuit(c, Replay(c, h[..n]), Replay(c, rest), h[n]);
    }
  }

  lemma RunningForceSnoc(h: seq<Event>, now: nat)
    requires h != []
    ensures SomeForceRunning(h, now)
            <==> SomeForceRunning(h[..|h| - 1], now) || (h[|h| - 1].Force? && !Expired(h[|h| - 1], now))
  {
    var n := |h| - 1;
    if SomeForceRunning(h[..n], now) {
      var i :| 0 <= i < n && h[..n][i].Force? && !Expired(h[..n][i], now);
      assert h[i].Force? && !Expired(h[i], now);
    }
    if SomeForceRunning(h, now) {
      var i :| 0 <= i < |h| && h[i].Force? && !Expired(h[i], now);
      assert i == n || h[..n][i] == h[i];
    }
  }

  // What is left after erasing forces the breaker open iff any force-open runs.
  lemma {:induction false} ErasedForce(h: seq<Event>, now: nat)
    ensures var f := LastForce(EraseExpired(h, now));
            && (f.Some? <==> SomeForceRunning(h, now))
            && (f.Some? ==> now < f.value)
    ensures LastForce(h).Some? && now < LastForce(h).value ==> SomeForceRunning(h, now)
  {
    if h != [] {
      var n := |h| - 1;
      ErasedForce(h[..n], now);
      RunningForceSnoc(h, now);
      var rest := EraseExpired(h[..n], now);
      assert (rest + [h[n]])[..|rest|] == rest;
    }
  }

  // Erasing expired force-opens is invisible except in one situation: the last
  // force-open has expired, an earlier one is still running, and the breaker
  // would not be open anyway.  A later, shorter force-open replaces an earlier one.
  lemma ErasingIsInvisibleExactly(c: Config, h: seq<Event>, now: nat)
    ensures StateAt(c, Replay(c, EraseExpired(h, now)), now) == StateAt(c, Replay(c, h), now)
            <==> (SomeForceRunning(h, now) ==>
                    (LastForce(h).Some? && now < LastForce(h).value) || BaseState(c, Replay(c, h).openedAt, now) == Open)
  {
    ErasingKeepsCircuit(c, h, now);
    ErasedForce(h, now);
    CounterAndForce(c, h);
    CounterAndForce(c, EraseExpired(h, now));
  }

  // Such a pair: 100 ns from time 0, then 1 ns from time 1.  At time 50 the
  // breaker is closed, though the first was to hold it open.
  lemma LaterForceCutsEarlierShort()
    ensures var c, h := Config(1, 10), [Force(0, 100), Force(1, 1)];
            && StateAt(c, Replay(c, h), 50) == Closed
            && StateAt(c, Replay(c, EraseExpired(h, 50)), 50) == Open
  {
    var c, first, both := Config(1, 10), [Force(0, 100)], [Force(0, 100), Force(1, 1)];
    assert both[..1] == first && first[..0] == [];
    assert EraseExpired(first, 50) == [] + first;
    assert EraseExpired(both, 50) == first;
  }

  // ---- The retry hint ------------------------------------------------------

  // Rounding both ends down to milliseconds moves their distance by less than one.
  lemma RoundedDistance(from: nat, to: nat)
    ensures var rounded := (to / NANOS_PER_MILLI - from / NANOS_PER_MILLI) * NANOS_PER_MILLI;
            to - from - NANOS_PER_MILLI < rounded < to - from + NANOS_PER_MILLI
  {
  }

  // What is advertised while nothing saturates.
  lemma RetryHintIs(c: Config, b: BreakerState, now: nat, unixMs: u64)
    requires now < U64_SPAN && b.openedAt <= now
    requires now / NANOS_PER_MILLI <= unixMs && unixMs + c.openDuration / NANOS_PER_MILLI < U64_SPAN
    ensures Refusal(c, b, now, unixMs).retryAtUnixMs
            == unixMs - (now - b.openedAt) / NANOS_PER_MILLI + c.openDuration / NANOS_PER_MILLI
  {
    var elapsed := now - b.openedAt;
    assert elapsed / NANOS_PER_MILLI <= now / NANOS_PER_MILLI <= unixMs;
    assert Refusal(c, b, now, unixMs).openedAtUnixMs == unixMs - elapsed / NANOS_PER_MILLI;
  }

  // The advertised opening time is the true one, rounded to a millisecond, and the
  // retry time comes the open duration after it.
  lemma OpeningHintIsTight(c: Config, b: BreakerState, now: nat, unixMs: u64)
    requires now < U64_SPAN && b.openedAt <= now
    requires now / NANOS_PER_MILLI <= unixMs && unixMs + c.openDuration / NANOS_PER_MILLI < U64_SPAN
    ensures var hint := Refusal(c, b, now, unixMs);
            && (unixMs - hint.openedAtUnixMs) * NANOS_PER_MILLI <= now - b.openedAt < (unixMs - hint.openedAtUnixMs + 1) * NANOS_PER_MILLI
            && hint.retryAtUnixMs - hint.openedAtUnixMs == c.openDuration / NANOS_PER_MILLI
  {
    var elapsed := now - b.openedAt;
    assert elapsed / NANOS_PER_MILLI <= now / NANOS_PER_MILLI <= unixMs;
    assert Refusal(c, b, now, unixMs).openedAtUnixMs == unixMs - elapsed / NANOS_PER_MILLI;
    WholeMillisBelow(elapsed);
  }

  lemma WholeMillisBelow(n: nat)
    ensures n / NANOS_PER_MILLI * NANOS_PER_MILLI <= n < (n / NANOS_PER_MILLI + 1) * NANOS_PER_MILLI
  {
  }

  // For a breaker that is open by itself, the advertised retry time is less
  // than a millisecond away from the moment it turns half-open.
  lemma RetryHintIsTight(c: Config, b: BreakerState, now: nat, unixMs: u64)
    requires StateAt(c, b, now) == Open && !Forced(b, now)
    requires now < U64_SPAN && c.openDuration < U64_SPAN && b.openedAt <= now
    requires now / NANOS_PER_MILLI <= unixMs && unixMs + c.openDuration / NANOS_PER_MILLI < U64_SPAN
    ensures var wait := (Refusal(c, b, now, unixMs).retryAtUnixMs - unixMs) * NANOS_PER_MILLI;
            var remaining := b.openedAt + c.openDuration - now;
            remaining - NANOS_PER_MILLI < wait < remaining + NANOS_PER_MILLI
    ensures b.openedAt + c.openDuration < U64_SPAN ==>
              BaseState(c, b.openedAt, b.openedAt + c.openDuration) == HalfOpen
  {
    RetryHintIs(c, b, now, unixMs);
    RoundedDistance(now - b.openedAt, c.openDuration);
  }
}
