// One remote worker (crates/inference-remote-core/src/worker.rs).
//
// What the outside world does to a dispatch is a function from the attempt
// number to an outcome: the breaker refuses, the provider call fails, or a
// finite stream of items arrives.  `acquire_permit` always succeeds and is
// therefore not a step.
module Worker {
  import opened Wrappers
  import opened Channels
  import opened Errors
  import opened Backoff
  import opened Retry

  type Item<C> = Result<C, InferenceError>

  datatype Outcome<C> =
    | GateClosed(err: InferenceError)
    | ExecuteFailed(err: InferenceError)
    | Streamed(items: seq<Item<C>>)

  type World<!C> = nat -> Outcome<C>

  // ---- One attempt ---------------------------------------------------------

  // The items forwarded before the first error.
  function OkPrefix<C>(items: seq<Item<C>>): seq<Item<C>> {
    if items == [] || items[0].Err? then [] else [items[0]] + OkPrefix(items[1..])
  }

  function FirstError<C>(items: seq<Item<C>>): Option<InferenceError> {
    if items == [] then None
    else if items[0].Err? then Some(items[0].error)
    else FirstError(items[1..])
  }

  function Forwarded<C>(o: Outcome<C>): seq<Item<C>> {
    if o.Streamed? then OkPrefix(o.items) else []
  }

  function Failure<C>(o: Outcome<C>): Option<InferenceError> {
    match o
    case GateClosed(e) => Some(e)
    case ExecuteFailed(e) => Some(e)
    case Streamed(items) => FirstError(items)
  }

  // ---- A whole dispatch ----------------------------------------------------

  datatype Trace<C> = Trace(output: seq<Item<C>>, sleeps: seq<nat>, executes: nat, result: Result<(), InferenceError>)

  // What a dispatch does from the given attempt on while the receiver listens.
  function TraceFrom<C>(slot: RetrySlot, world: World<C>, attempt: nat): Trace<C>
    requires attempt <= slot.maxRetries
    decreases slot.maxRetries - attempt
  {
    var o := world(attempt);
    if o.GateClosed? then Trace([], [], 0, Err(o.err))
    else if Failure(o).None? then Trace(Forwarded(o), [], 1, Ok(()))
    else
      match slot.decide(attempt, Failure(o).value)
      case GiveUp => Trace(Forwarded(o), [], 1, Err(Failure(o).value))
      case Retry(after) =>
        var t := TraceFrom(slot, world, attempt + 1);
        Trace(Forwarded(o) + t.output, [after] + t.sleeps, 1 + t.executes, t.result)
  }

  // Everything written to the request's channel.
  function Log<C>(t: Trace<C>): seq<Item<C>> {
    t.output + if t.result.Err? then [Err(t.result.error)] else []
  }

  // A trace whose beginning has already happened.
  function After<C>(done: Trace<C>, rest: Trace<C>): Trace<C> {
    Trace(done.output + rest.output, done.sleeps + rest.sleeps, done.executes + rest.executes, rest.result)
  }

  lemma AfterNothing<C>(t: Trace<C>, pre: seq<Item<C>>)
    ensures After(Trace([], [], 0, Ok(())), t) == t && pre + [] == pre
  {
    assert [] + t.output == t.output && [] + t.sleeps == t.sleeps;
  }

  lemma RetryStep<C>(slot: RetrySlot, world: World<C>, attempt: nat, done: Trace<C>, after: nat, pre: seq<Item<C>>)
    requires attempt <= slot.maxRetries
    requires !world(attempt).GateClosed? && Failure(world(attempt)).Some?
    requires slot.decide(attempt, Failure(world(attempt)).value) == Retry(after)
    ensures attempt < slot.maxRetries
    ensures After(done, TraceFrom(slot, world, attempt))
            == After(Trace(done.output + Forwarded(world(attempt)), done.sleeps + [after], done.executes + 1, Ok(())),
                     TraceFrom(slot, world, attempt + 1))
    ensures pre + (done.output + Forwarded(world(attempt))) == (pre + done.output) + Forwarded(world(attempt))
  {
    var next := TraceFrom(slot, world, attempt + 1);
    Regroup(done.output, Forwarded(world(attempt)), next.output);
    Regroup(done.sleeps, [after], next.sleeps);
    Regroup(pre, done.output, Forwarded(world(attempt)));
  }

  // Nothing is tried after this attempt.
  predicate IsLast<C>(slot: RetrySlot, world: World<C>, attempt: nat) {
    var o := world(attempt);
    o.GateClosed? || Failure(o).None? || slot.decide(attempt, Failure(o).value).GiveUp?
  }

  function Ending<C>(o: Outcome<C>): Result<(), InferenceError> {
    if Failure(o).None? then Ok(()) else Err(Failure(o).value)
  }

  lemma EndsHere<C>(slot: RetrySlot, world: World<C>, attempt: nat, done: Trace<C>)
    requires attempt <= slot.maxRetries && IsLast(slot, world, attempt)
    ensures var o, t := world(attempt), After(done, TraceFrom(slot, world, attempt));
            && t.output == done.output + Forwarded(o) && t.sleeps == done.sleeps && t.result == Ending(o)
            && t.executes == done.executes + (if o.GateClosed? then 0 else 1)
  {
  }

  // The concatenated Ok-prefixes of n consecutive attempts.
  function ForwardedBy<C>(world: World<C>, first: nat, n: nat): seq<Item<C>>
    decreases n
  {
    if n == 0 then [] else Forwarded(world(first)) + ForwardedBy(world, first + 1, n - 1)
  }

  lemma {:induction false} ForwardedBySnoc<C>(world: World<C>, first: nat, n: nat)
    ensures ForwardedBy(world, first, n + 1) == ForwardedBy(world, first, n) + Forwarded(world(first + n))
    decreases n
  {
    if n > 0 {
      ForwardedBySnoc(world, first + 1, n - 1);
      Regroup(Forwarded(world(first)), ForwardedBy(world, first + 1, n - 1), Forwarded(world(first + n)));
    }
  }

  // The last of these calls is the first of which the receiver misses a part.
  ghost predicate CutShort<C>(world: World<C>, limit: Option<nat>, pre: seq<Item<C>>, calls: nat) {
    && calls > 0
    && Fits(limit, |pre + ForwardedBy(world, 0, calls - 1)|)
    && !Fits(limit, |pre + ForwardedBy(world, 0, calls)|)
  }

  // How a dispatch that would follow t ends for a receiver with this limit:
  // with everything done, or cut short and reported as success.
  ghost predicate Settled<C>(world: World<C>, t: Trace<C>, limit: Option<nat>, pre: seq<Item<C>>, now: seq<Item<C>>,
                             calls: nat, naps: seq<nat>, r: Result<(), InferenceError>) {
    && now == Deliver(limit, pre + t.output)
    && calls <= t.executes && naps <= t.sleeps
    && if Fits(limit, |pre + t.output|) then r == t.result && calls == t.executes && naps == t.sleeps
       else r == Ok(()) && calls == |naps| + 1 && CutShort(world, limit, pre, calls)
  }

  // Where the retry loop stands before an attempt: what is done, and what is to come.
  ghost predicate Underway<C>(slot: RetrySlot, world: World<C>, attempt: nat, done: Trace<C>, t: Trace<C>,
                              pre: seq<Item<C>>, now: seq<Item<C>>) {
    && attempt <= slot.maxRetries
    && t == After(done, TraceFrom(slot, world, attempt))
    && done.executes == |done.sleeps| == attempt && done.output == ForwardedBy(world, 0, attempt)
    && now == pre + done.output
  }

  lemma StartUnderway<C>(slot: RetrySlot, world: World<C>, pre: seq<Item<C>>)
    ensures Underway(slot, world, 0, Trace([], [], 0, Ok(())), TraceFrom(slot, world, 0), pre, pre)
  {
    AfterNothing(TraceFrom(slot, world, 0), pre);
  }

  lemma RetryUnderway<C>(slot: RetrySlot, world: World<C>, attempt: nat, done: Trace<C>, t: Trace<C>, after: nat,
                         pre: seq<Item<C>>, now: seq<Item<C>>)
    requires Underway(slot, world, attempt, done, t, pre, now)
    requires !world(attempt).GateClosed? && Failure(world(attempt)).Some?
    requires slot.decide(attempt, Failure(world(attempt)).value) == Retry(after)
    ensures attempt < slot.maxRetries
    ensures Underway(slot, world, attempt + 1,
                     Trace(done.output + Forwarded(world(attempt)), done.sleeps + [after], done.executes + 1, Ok(())),
                     t, pre, now + Forwarded(world(attempt)))
  {
    RetryStep(slot, world, attempt, done, after, pre);
    ForwardedBySnoc(world, 0, attempt);
  }

  lemma CutsHere<C>(world: World<C>, attempt: nat, limit: Option<nat>, pre: seq<Item<C>>, output: seq<Item<C>>)
    requires output == ForwardedBy(world, 0, attempt) && Fits(limit, |pre + output|)
    requires !Fits(limit, |(pre + output) + Forwarded(world(attempt))|)
    ensures CutShort(world, limit, pre, attempt + 1) && !world(attempt).GateClosed?
  {
    ForwardedBySnoc(world, 0, attempt);
    Regroup(pre, output, Forwarded(world(attempt)));
  }

  // The attempt at hand comes first in what is to come.
  lemma AttemptIsFirst<C>(slot: RetrySlot, world: World<C>, attempt: nat)
    requires attempt <= slot.maxRetries
    ensures Forwarded(world(attempt)) <= TraceFrom(slot, world, attempt).output
    ensures !world(attempt).GateClosed? ==> TraceFrom(slot, world, attempt).executes > 0
  {
  }

  lemma CutSettles<C>(slot: RetrySlot, world: World<C>, attempt: nat, done: Trace<C>, t: Trace<C>, limit: Option<nat>,
                      pre: seq<Item<C>>, now: seq<Item<C>>)
    requires Underway(slot, world, attempt, done, t, pre, now) && Fits(limit, |now|)
    requires !Fits(limit, |now + Forwarded(world(attempt))|)
    ensures !world(attempt).GateClosed?
    ensures Settled(world, t, limit, pre, Deliver(limit, now + Forwarded(world(attempt))), done.executes + 1, done.sleeps, Ok(()))
  {
    var o, next := world(attempt), TraceFrom(slot, world, attempt);
    CutsHere(world, attempt, limit, pre, done.output);
    AttemptIsFirst(slot, world, attempt);
    var rest := next.output[|Forwarded(o)|..];
    assert next.output == Forwarded(o) + rest;
    Regroup(pre, done.output, next.output);
    Regroup(now, Forwarded(o), rest);
    DeliverIgnoresRest(limit, now + Forwarded(o), rest);
  }

  lemma EndSettles<C>(slot: RetrySlot, world: World<C>, attempt: nat, done: Trace<C>, t: Trace<C>, limit: Option<nat>,
                      pre: seq<Item<C>>, now: seq<Item<C>>)
    requires Underway(slot, world, attempt, done, t, pre, now) && IsLast(slot, world, attempt)
    requires Fits(limit, |now + Forwarded(world(attempt))|)
    ensures Settled(world, t, limit, pre, now + Forwarded(world(attempt)),
                    done.executes + (if world(attempt).GateClosed? then 0 else 1), done.sleeps, Ending(world(attempt)))
  {
    EndsHere(slot, world, attempt, done);
    Regroup(pre, done.output, Forwarded(world(attempt)));
  }

  lemma StopSettles<C>(slot: RetrySlot, world: World<C>, attempt: nat, done: Trace<C>, t: Trace<C>, limit: Option<nat>,
                       pre: seq<Item<C>>, now: seq<Item<C>>)
    requires Underway(slot, world, attempt, done, t, pre, now) && Fits(limit, |now|)
    requires Fits(limit, |now + Forwarded(world(attempt))|) ==> IsLast(slot, world, attempt)
    ensures Settled(world, t, limit, pre, Deliver(limit, now + Forwarded(world(attempt))),
                    done.executes + (if world(attempt).GateClosed? then 0 else 1), done.sleeps,
                    if Fits(limit, |now + Forwarded(world(attempt))|) then Ending(world(attempt)) else Ok(()))
  {
    if Fits(limit, |now + Forwarded(world(attempt))|) {
      EndSettles(slot, world, attempt, done, t, limit, pre, now);
    } else {
      CutSettles(slot, world, attempt, done, t, limit, pre, now);
    }
  }

  // How one pass of the retry loop ends.
  datatype Next = Stop(result: Result<(), InferenceError>) | Again(after: nat)

  class RemoteWorker<C> {
    const slot: RetrySlot
    const world: World<C>
    var idleSignals: nat

    constructor (slot: RetrySlot, world: World<C>)
      ensures this.slot == slot && this.world == world && idleSignals == 0
    {
      this.slot := slot;
      this.world := world;
      idleSignals := 0;
    }

    // The inner loop: forward items until the stream ends, fails or nobody listens.
    method ForwardStream(items: seq<Item<C>>, out: Sender<Item<C>>) returns (failure: Option<InferenceError>, cancelled: bool)
      requires out.Valid()
      modifies out
      ensures out.Valid()
      ensures out.delivered == Deliver(out.limit, old(out.delivered) + OkPrefix(items))
      ensures cancelled == !Fits(out.limit, |old(out.delivered) + OkPrefix(items)|)
      ensures !cancelled ==> failure == FirstError(items)
    {
      ghost var start := out.delivered;
      failure, cancelled := None, false;
      for i := 0 to |items|
        invariant out.Valid() && failure.None? && !cancelled
        invariant start + OkPrefix(items) == out.delivered + OkPrefix(items[i..])
        invariant FirstError(items) == FirstError(items[i..])
      {
        if items[i].Err? {
          return Some(items[i].error), false;
        }
        assert items[i..][1..] == items[i + 1..];
        ghost var before, rest := out.delivered, OkPrefix(items[i + 1..]);
        assert before + OkPrefix(items[i..]) == (before + [items[i]]) + rest;
        var sent := out.Send(items[i]);
        if !sent {
          DeliverIgnoresRest(out.limit, before + [items[i]], rest);
          return None, true;
        }
      }
    }

    // One pass of the outer loop, up to the decision what to do next.
    method RunAttempt(attempt: nat, out: Sender<Item<C>>) returns (next: Next, executed: bool)
      requires out.Valid()
      modifies out
      ensures out.Valid()
      ensures executed == !world(attempt).GateClosed?
      ensures out.delivered == Deliver(out.limit, old(out.delivered) + Forwarded(world(attempt)))
      ensures next == if !Fits(out.limit, |old(out.delivered) + Forwarded(world(attempt))|) then Stop(Ok(()))
                      else if IsLast(slot, world, attempt) then Stop(Ending(world(attempt)))
                      else Again(slot.decide(attempt, Failure(world(attempt)).value).after)
    {
      var outcome := world(attempt);
      assert old(out.delivered) + [] == old(out.delivered);
      executed := !outcome.GateClosed?;
      if !executed {
        return Stop(Err(outcome.err)), executed;
      }
      var failure: Option<InferenceError>;
      if outcome.Streamed? {
        var cancelled;
        failure, cancelled := ForwardStream(outcome.items, out);
        if cancelled {
          return Stop(Ok(())), executed;
        }
      } else {
        failure := Some(outcome.err);
      }
      if failure.None? {
        return Stop(Ok(())), executed;
      }
      match slot.decide(attempt, failure.value) {
        case GiveUp => next := Stop(Err(failure.value));
        case Retry(after) => next := Again(after);
      }
    }

    // `calls` counts the provider calls made, `naps` are the sleeps taken.
    method ExecuteWithRetries(out: Sender<Item<C>>) returns (r: Result<(), InferenceError>, calls: nat, naps: seq<nat>)
      requires out.Valid()
      modifies out
      ensures out.Valid()
      ensures Settled(world, TraceFrom(slot, world, 0), out.limit, old(out.delivered), out.delivered, calls, naps, r)
    {
      ghost var pre, t := out.delivered, TraceFrom(slot, world, 0);
      ghost var output: seq<Item<C>> := [];
      var attempt := 0;
      calls, naps := 0, [];
      StartUnderway(slot, world, pre);
      while true
        invariant out.Valid()
        invariant Underway(slot, world, attempt, Trace(output, naps, calls, Ok(())), t, pre, out.delivered)
        decreases slot.maxRetries - attempt
      {
        ghost var done, now := Trace(output, naps, calls, Ok(())), out.delivered;
        var next, executed := RunAttempt(attempt, out);
        if next.Stop? {
          StopSettles(slot, world, attempt, done, t, out.limit, pre, now);
          return next.result, calls + (if executed then 1 else 0), naps;
        }
        RetryUnderway(slot, world, attempt, done, t, next.after, pre, now);
        output := output + Forwarded(world(attempt));
        calls, naps, attempt := calls + 1, naps + [next.after], attempt + 1;
      }
    }

    // A failed dispatch ends with one terminal error; every dispatch ends with
    // one idle signal.
    method Dispatch(out: Sender<Item<C>>) returns (calls: nat)
      requires out.Valid()
      modifies this, out
      ensures out.Valid()
      ensures out.delivered == Deliver(out.limit, old(out.delivered) + Log(TraceFrom(slot, world, 0)))
      ensures calls <= TraceFrom(slot, world, 0).executes
      ensures if Fits(out.limit, |old(out.delivered) + TraceFrom(slot, world, 0).output|)
              then calls == TraceFrom(slot, world, 0).executes
              else CutShort(world, out.limit, old(out.delivered), calls)
      ensures idleSignals == old(idleSignals) + 1
    {
      ghost var t := TraceFrom(slot, world, 0);
      ghost var pre := out.delivered;
      var r, n, naps := ExecuteWithRetries(out);
      calls := n;
      if r.Err? {
        var _ := out.Send(Err(r.error));
        assert (pre + t.output) + [Err(r.error)] == pre + Log(t);
      } else if Fits(out.limit, |pre + t.output|) {
        assert pre + Log(t) == pre + t.output;
      } else {
        assert pre + Log(t) == (pre + t.output) + Log(t)[|t.output|..];
        DeliverIgnoresRest(out.limit, pre + t.output, Log(t)[|t.output|..]);
      }
      idleSignals := idleSignals + 1;
    }
  }

  // ---- Properties of the trace ---------------------------------------------

  // Attempt i failed with a retryable error and was granted this sleep.
  ghost predicate RetriedPast<C>(slot: RetrySlot, world: World<C>, i: nat, sleep: nat) {
    && !world(i).GateClosed?
    && Failure(world(i)).Some?
    && IsRetryable(Failure(world(i)).value)
    && slot.decide(i, Failure(world(i)).value) == Retry(sleep)
  }

  ghost predicate AllRetried<C>(slot: RetrySlot, world: World<C>, first: nat, sleeps: seq<nat>) {
    forall i :: 0 <= i < |sleeps| ==> RetriedPast(slot, world, first + i, sleeps[i])
  }

  // With n sleeps, attempts 0..n-1 failed with a retryable error each, and
  // attempt n ended the dispatch.
  ghost predicate Shape<C>(slot: RetrySlot, world: World<C>, attempt: nat, t: Trace<C>) {
    var last := attempt + |t.sleeps|;
    && last <= slot.maxRetries
    && t.output == ForwardedBy(world, attempt, |t.sleeps| + 1)
    && t.executes == |t.sleeps| + (if world(last).GateClosed? then 0 else 1)
    && IsLast(slot, world, last)
    && t.result == Ending(world(last))
    && AllRetried(slot, world, attempt, t.sleeps)
  }

  // Exact characterisation of every dispatch.
  lemma {:induction false} TraceShape<C>(slot: RetrySlot, world: World<C>, attempt: nat)
    requires attempt <= slot.maxRetries
    ensures Shape(slot, world, attempt, TraceFrom(slot, world, attempt))
    decreases slot.maxRetries - attempt
  {
    if IsLast(slot, world, attempt) {
      ShapeOfLast(slot, world, attempt);
    } else {
      TraceShape(slot, world, attempt + 1);
      ShapeOfRetry(slot, world, attempt);
    }
  }

  lemma ShapeOfLast<C>(slot: RetrySlot, world: World<C>, attempt: nat)
    requires attempt <= slot.maxRetries && IsLast(slot, world, attempt)
    ensures Shape(slot, world, attempt, TraceFrom(slot, world, attempt))
  {
    assert ForwardedBy(world, attempt, 1) == Forwarded(world(attempt)) + [];
  }

  lemma ShapeOfRetry<C>(slot: RetrySlot, world: World<C>, attempt: nat)
    requires attempt < slot.maxRetries && !IsLast(slot, world, attempt)
    requires Shape(slot, world, attempt + 1, TraceFrom(slot, world, attempt + 1))
    ensures Shape(slot, world, attempt, TraceFrom(slot, world, attempt))
  {
    var o, t' := world(attempt), TraceFrom(slot, world, attempt + 1);
    var after := slot.decide(attempt, Failure(o).value).after;
    var t := Trace(Forwarded(o) + t'.output, [after] + t'.sleeps, 1 + t'.executes, t'.result);
    assert TraceFrom(slot, world, attempt) == t;
    assert attempt + |t.sleeps| == (attempt + 1) + |t'.sleeps|;
    AllRetriedCons(slot, world, attempt, after, t'.sleeps);
  }

  lemma AllRetriedCons<C>(slot: RetrySlot, world: World<C>, first: nat, sleep: nat, sleeps: seq<nat>)
    requires RetriedPast(slot, world, first, sleep) && AllRetried(slot, world, first + 1, sleeps)
    ensures AllRetried(slot, world, first, [sleep] + sleeps)
  {
    forall i | 0 <= i < |[sleep] + sleeps|
      ensures RetriedPast(slot, world, first + i, ([sleep] + sleeps)[i])
    {
      if i > 0 {
        assert RetriedPast(slot, world, (first + 1) + (i - 1), sleeps[i - 1]);
      }
    }
  }

  // At most max_retries + 1 provider calls, and just one when requests must
  // not be repeated.
  lemma CallsAreBounded<C>(engine: RetryEngine, world: World<C>)
    ensures TraceFrom(SlotOf(engine), world, 0).executes <= engine.policy.maxRetries + 1
    ensures !engine.idempotent ==> TraceFrom(SlotOf(engine), world, 0).executes <= 1
                                   && TraceFrom(SlotOf(engine), world, 0).sleeps == []
  {
    TraceShape(SlotOf(engine), world, 0);
  }

  lemma {:induction false} OkPrefixIsOk<C>(items: seq<Item<C>>)
    ensures OkPrefix(items) <= items
    ensures forall i :: 0 <= i < |OkPrefix(items)| ==> OkPrefix(items)[i].Ok?
    ensures |OkPrefix(items)| < |items| ==> items[|OkPrefix(items)|].Err?
    ensures FirstError(items) == if |OkPrefix(items)| < |items| then Some(items[|OkPrefix(items)|].error) else None
  {
    if items != [] && items[0].Ok? {
      OkPrefixIsOk(items[1..]);
      assert items == [items[0]] + items[1..];
    }
  }

  ghost predicate AllOk<C>(items: seq<Item<C>>) {
    forall i :: 0 <= i < |items| ==> items[i].Ok?
  }

  lemma {:induction false} OutputIsOk<C>(slot: RetrySlot, world: World<C>, attempt: nat)
    requires attempt <= slot.maxRetries
    ensures AllOk(TraceFrom(slot, world, attempt).output)
    decreases slot.maxRetries - attempt
  {
    var o := world(attempt);
    if o.Streamed? {
      OkPrefixIsOk(o.items);
    }
    if !IsLast(slot, world, attempt) {
      OutputIsOk(slot, world, attempt + 1);
    }
  }

  // The log holds an error only as its last entry, and only when the dispatch failed.
  lemma OnlyTheLastIsAnError<C>(slot: RetrySlot, world: World<C>)
    ensures var t := TraceFrom(slot, world, 0);
            && (t.result.Err? <==> !AllOk(Log(t)))
            && (t.result.Err? ==> AllOk(Log(t)[..|Log(t)| - 1]) && Log(t)[|Log(t)| - 1] == Err(t.result.error))
  {
    var t := TraceFrom(slot, world, 0);
    OutputIsOk(slot, world, 0);
    if t.result.Err? {
      assert Log(t)[|t.output|] == Err(t.result.error);
      assert Log(t)[..|Log(t)| - 1] == t.output;
    }
  }

  // ---- Time spent asleep ---------------------------------------------------

  function Total(sleeps: seq<nat>): nat {
    if sleeps == [] then 0 else sleeps[0] + Total(sleeps[1..])
  }

  // No attempt fails with a Retry-After that is honoured.
  ghost predicate OwnBackoffOnly<C(!new)>(engine: RetryEngine, world: World<C>) {
    forall i: nat :: Failure(world(i)).Some? ==> !HonoursServer(engine, Failure(world(i)).value)
  }

  lemma {:induction false} TotalBound(sleeps: seq<nat>, each: nat)
    requires forall i :: 0 <= i < |sleeps| ==> sleeps[i] <= each
    ensures Total(sleeps) <= |sleeps| * each
  {
    if sleeps != [] {
      TotalBound(sleeps[1..], each);
    }
  }

  lemma MulMonotone(a: nat, b: nat, c: nat)
    requires a <= b
    ensures a * c <= b * c
  {
  }

  // Total sleep of a dispatch, whatever fails and however often.
  lemma SleepAtMostMaxEach<C(!new)>(engine: RetryEngine, world: World<C>)
    requires OwnBackoffOnly(engine, world)
    ensures Total(TraceFrom(SlotOf(engine), world, 0).sleeps) <= engine.policy.maxRetries * engine.policy.maxBackoff
  {
    var sleeps := TraceFrom(SlotOf(engine), world, 0).sleeps;
    TraceShape(SlotOf(engine), world, 0);
    forall i | 0 <= i < |sleeps|
      ensures sleeps[i] <= engine.policy.maxBackoff
    {
      assert RetriedPast(SlotOf(engine), world, 0 + i, sleeps[i]);
      RetryGranted(engine, i, Failure(world(i)).value);
    }
    TotalBound(sleeps, engine.policy.maxBackoff);
    MulMonotone(|sleeps|, engine.policy.maxRetries, engine.policy.maxBackoff);
  }

  // Without jitter, sleep i is exactly the base delay of attempt i.
  lemma SleepsAreExact<C(!new)>(engine: RetryEngine, world: World<C>, i: nat)
    requires OwnBackoffOnly(engine, world) && engine.policy.jitter == NoJitter
    requires i < |TraceFrom(SlotOf(engine), world, 0).sleeps| && i < SIGN_CHANGE
    ensures Lasts(TraceFrom(SlotOf(engine), world, 0).sleeps[i], BaseMillis(engine.policy, i))
  {
    TraceShape(SlotOf(engine), world, 0);
    assert RetriedPast(SlotOf(engine), world, 0 + i, TraceFrom(SlotOf(engine), world, 0).sleeps[i]);
    RetryWaits(engine, i, Failure(world(i)).value);
  }

  function TotalMillis(sleeps: seq<nat>): nat {
    if sleeps == [] then 0 else AsMillis(sleeps[0]) + TotalMillis(sleeps[1..])
  }

  // Every sleep is a whole number of milliseconds within its geometric term.
  ghost predicate WithinTerms(sleeps: seq<nat>, first: nat, ms: nat, m: real) {
    forall i :: 0 <= i < |sleeps| ==>
      sleeps[i] % NANOS_PER_MILLI == 0 && AsMillis(sleeps[i]) as real <= GeometricTerm(ms, m, first + i)
  }

  lemma {:induction false} GeometricTotal(sleeps: seq<nat>, first: nat, ms: nat, m: real)
    requires m > 1.0 && WithinTerms(sleeps, first, ms, m)
    ensures TotalMillis(sleeps) as real <= GeometricSum(ms, m, first + |sleeps|) - GeometricSum(ms, m, first)
    ensures Total(sleeps) == FromMillis(TotalMillis(sleeps))
    decreases |sleeps|
  {
    if sleeps != [] {
      forall i | 0 <= i < |sleeps[1..]|
        ensures sleeps[1..][i] % NANOS_PER_MILLI == 0
        ensures AsMillis(sleeps[1..][i]) as real <= GeometricTerm(ms, m, (first + 1) + i)
      {
        assert sleeps[1..][i] == sleeps[i + 1] && (first + 1) + i == first + (i + 1);
      }
      GeometricTotal(sleeps[1..], first + 1, ms, m);
      assert AsMillis(sleeps[0]) as real <= GeometricTerm(ms, m, first + 0);
      assert (first + 1) + |sleeps[1..]| == first + |sleeps|;
    }
  }

  lemma SleepTerm(engine: RetryEngine, attempt: nat, e: InferenceError)
    requires Decide(engine, attempt, e).Retry? && !HonoursServer(engine, e) && engine.policy.multiplier > 1.0
    ensures var after := Decide(engine, attempt, e).after;
            && after % NANOS_PER_MILLI == 0
            && AsMillis(after) as real <= GeometricTerm(AsMillis(engine.policy.initialBackoff), engine.policy.multiplier, attempt)
  {
    var p := BackoffOf(engine.policy);
    DelayWithinGeometricTerm(p, attempt);
    TermIsScaledPower(AsMillis(p.initial), p.multiplier, attempt);
    PowAtLeastOne(p.multiplier, attempt);
    ScaleBetween(AsMillis(p.initial) as real, 0.0, Pow(p.multiplier, attempt));
    WholeMillis(DelayMillis(p, attempt));
  }

  lemma SleepsWithinTerms<C(!new)>(engine: RetryEngine, world: World<C>)
    requires OwnBackoffOnly(engine, world) && engine.policy.multiplier > 1.0
    ensures WithinTerms(TraceFrom(SlotOf(engine), world, 0).sleeps, 0,
                        AsMillis(engine.policy.initialBackoff), engine.policy.multiplier)
  {
    var sleeps := TraceFrom(SlotOf(engine), world, 0).sleeps;
    TraceShape(SlotOf(engine), world, 0);
    forall i | 0 <= i < |sleeps|
      ensures sleeps[i] % NANOS_PER_MILLI == 0
      ensures AsMillis(sleeps[i]) as real
              <= GeometricTerm(AsMillis(engine.policy.initialBackoff), engine.policy.multiplier, 0 + i)
    {
      assert RetriedPast(SlotOf(engine), world, 0 + i, sleeps[i]);
      SleepTerm(engine, i, Failure(world(i)).value);
    }
  }

  // For a multiplier m above one, n sleeps last at most
  // initial * (m^n - 1) / (m - 1) in all, counted in milliseconds; see
  // GeometricClosedForm for the quotient.
  lemma SleepWithinGeometricSum<C(!new)>(engine: RetryEngine, world: World<C>)
    requires OwnBackoffOnly(engine, world) && engine.policy.multiplier > 1.0
    ensures var sleeps := TraceFrom(SlotOf(engine), world, 0).sleeps;
            && Total(sleeps) == FromMillis(TotalMillis(sleeps))
            && TotalMillis(sleeps) as real
               <= GeometricSum(AsMillis(engine.policy.initialBackoff), engine.policy.multiplier, |sleeps|)
  {
    SleepsWithinTerms(engine, world);
    GeometricTotal(TraceFrom(SlotOf(engine), world, 0).sleeps, 0,
                   AsMillis(engine.policy.initialBackoff), engine.policy.multiplier);
  }
}
