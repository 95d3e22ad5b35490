// The Python-facing token stream and the draining call beside it
// (crates/inference-py-bindings/src/cluster.rs, crates/inference-core/src/tokens.rs).
//
// What the runner answers is a parameter: either an error, or a feed giving the
// outcome of each poll of its stream in turn.
module TokenStreams {
  import opened Wrappers

  type Failure = nat

  datatype FinishReason = Stop | Length | ToolCalls | ContentFilter | Error

  datatype Usage = Usage(input: u32, output: u32, reasoning: u32, cached: u32)

  datatype Chunk = Chunk(requestId: string, textDelta: string, usage: Option<Usage>, finish: Option<FinishReason>)

  datatype Item = Next(chunk: Chunk) | Fail(err: Failure) | End

  type Feed = nat -> Item

  type Outcome = Result<Feed, Failure>

  // ---- One call to __anext__: two critical sections ------------------------

  datatype Reply = Yield(chunk: Chunk) | Raise(err: Failure) | StopIteration

  datatype StreamState = Pending | Active(feed: Feed, polled: nat) | Done

  datatype Booted = Booted(state: StreamState, executions: nat, failure: Option<Failure>)

  // The first section turns a pending stream into an active one, or fails it.
  function Boot(s: StreamState, outcome: Outcome): Booted {
    if !s.Pending? then Booted(s, 0, None)
    else
      match outcome
      case Ok(feed) => Booted(Active(feed, 0), 1, None)
      case Err(e) => Booted(Done, 1, Some(e))
  }

  // The second section polls an active stream once.
  function Pull(s: StreamState): (StreamState, Reply) {
    match s
    case Active(feed, polled) =>
      (match feed(polled)
       case Next(chunk) => (Active(feed, polled + 1), Yield(chunk))
       case Fail(e) => (Done, Raise(e))
       case End => (Done, StopIteration))
    case _ => (s, StopIteration)
  }

  class TokenStream {
    var state: StreamState
    var executions: nat
    const outcome: Outcome

    constructor (outcome: Outcome)
      ensures state == Pending && executions == 0 && this.outcome == outcome
    {
      state := Pending;
      executions := 0;
      this.outcome := outcome;
    }

    // The only call of the runner.
    method Execute() returns (r: Outcome)
      modifies this`executions
      ensures r == outcome && executions == old(executions) + 1
    {
      executions := executions + 1;
      r := outcome;
    }

    method Bootstrap() returns (failure: Option<Failure>)
      modifies this
      ensures var b := Boot(old(state), outcome);
              state == b.state && failure == b.failure && executions == old(executions) + b.executions
    {
      var prev := state;
      state := Done;
      match prev {
        case Pending =>
          var result := Execute();
          match result {
            case Ok(feed) => state := Active(feed, 0);
            case Err(e) => return Some(e);
          }
        case other => state := other;
      }
      failure := None;
    }

    method PullNext() returns (reply: Reply)
      modifies this`state
      ensures (state, reply) == Pull(old(state))
    {
      match state {
        case Active(feed, polled) =>
          match feed(polled) {
            case Next(chunk) =>
              state := Active(feed, polled + 1);
              return Yield(chunk);
            case Fail(e) =>
              state := Done;
              return Raise(e);
            case End =>
              state := Done;
              return StopIteration;
          }
        case _ => return StopIteration;
      }
    }
  }

  // ---- Any number of calls, interleaved ------------------------------------

  datatype Phase = Start | Polling | Finished

  // `log` holds the replies in the order the lock decided them.
  datatype System = System(state: StreamState, executions: nat, phases: map<nat, Phase>, log: seq<Reply>)

  const INITIAL := System(Pending, 0, map[], [])

  function PhaseOf(s: System, call: nat): Phase {
    if call in s.phases then s.phases[call] else Start
  }

  // The next critical section of one call; a finished call takes no step.
  function Step(s: System, call: nat, outcome: Outcome): System {
    match PhaseOf(s, call)
    case Start =>
      var b := Boot(s.state, outcome);
      System(b.state, s.executions + b.executions,
             s.phases[call := if b.failure.Some? then Finished else Polling],
             match b.failure case Some(e) => s.log + [Raise(e)] case None => s.log)
    case Polling =>
      var (state, reply) := Pull(s.state);
      System(state, s.executions, s.phases[call := Finished], s.log + [reply])
    case Finished => s
  }

  function Run(schedule: seq<nat>, outcome: Outcome): System {
    if schedule == [] then INITIAL
    else Step(Run(schedule[..|schedule| - 1], outcome), schedule[|schedule| - 1], outcome)
  }

  // ---- What the callers must see -------------------------------------------

  predicate AllChunks(feed: Feed, n: nat) {
    forall i :: 0 <= i < n ==> feed(i).Next?
  }

  // The k-th reply: the feed up to its first error or end, and then only stops.
  function Expected(outcome: Outcome, k: nat): Reply {
    match outcome
    case Err(e) => if k == 0 then Raise(e) else StopIteration
    case Ok(feed) =>
      if !AllChunks(feed, k) then StopIteration
      else
        match feed(k)
        case Next(chunk) => Yield(chunk)
        case Fail(e) => Raise(e)
        case End => StopIteration
  }

  function ExpectedLog(outcome: Outcome, n: nat): seq<Reply> {
    seq(n, k requires 0 <= k => Expected(outcome, k))
  }

  ghost predicate Inv(s: System, outcome: Outcome) {
    && s.log == ExpectedLog(outcome, |s.log|)
    && s.executions == (if s.state.Pending? then 0 else 1)
    && (s.state.Pending? ==> s.log == [] && forall call :: PhaseOf(s, call) == Start)
    && match outcome
       case Err(_) => !s.state.Active? && (s.state.Done? ==> s.log != [])
       case Ok(feed) =>
         && (s.state.Active? ==> s.state == Active(feed, |s.log|) && AllChunks(feed, |s.log|))
         && (s.state.Done? ==> !AllChunks(feed, |s.log|))
  }

  lemma ExpectedSnoc(outcome: Outcome, n: nat)
    ensures ExpectedLog(outcome, n + 1) == ExpectedLog(outcome, n) + [Expected(outcome, n)]
  {
  }

  lemma StepKeepsInv(s: System, call: nat, outcome: Outcome)
    requires Inv(s, outcome)
    ensures Inv(Step(s, call, outcome), outcome)
  {
    ExpectedSnoc(outcome, |s.log|);
    var s' := Step(s, call, outcome);
    if PhaseOf(s, call) == Polling && outcome.Ok? && s.state.Active? {
      var feed := outcome.value;
      assert AllChunks(feed, |s.log|);
      if s'.state.Done? {
        assert !feed(|s.log|).Next?;
      }
    }
  }

  lemma {:induction false} RunKeepsInv(schedule: seq<nat>, outcome: Outcome)
    ensures Inv(Run(schedule, outcome), outcome)
  {
    if schedule != [] {
      RunKeepsInv(schedule[..|schedule| - 1], outcome);
      StepKeepsInv(Run(schedule[..|schedule| - 1], outcome), schedule[|schedule| - 1], outcome);
    }
  }

  // However the calls interleave: the runner is called at most once, and the
  // replies in lock order are the expected ones, none lost and none repeated.
  lemma Linear(schedule: seq<nat>, outcome: Outcome)
    ensures var s := Run(schedule, outcome);
            && s.executions == (if schedule == [] then 0 else 1)
            && s.log == ExpectedLog(outcome, |s.log|)
  {
    RunKeepsInv(schedule, outcome);
    if schedule != [] {
      NotPendingAfter(schedule, outcome);
    }
  }

  lemma NotPendingAfter(schedule: seq<nat>, outcome: Outcome)
    requires schedule != []
    ensures !Run(schedule, outcome).state.Pending?
  {
    var n := |schedule| - 1;
    RunKeepsInv(schedule[..n], outcome);
    assert PhaseOf(Run(schedule[..n], outcome), schedule[n]) == Start || !Run(schedule[..n], outcome).state.Pending?;
  }

  // A call is answered once: the replies number the finished calls.
  function FinishedCalls(s: System): set<nat> {
    set call | call in s.phases && s.phases[call] == Finished
  }

  lemma {:induction false} OneReplyPerCall(schedule: seq<nat>, outcome: Outcome)
    ensures |FinishedCalls(Run(schedule, outcome))| == |Run(schedule, outcome).log|
  {
    if schedule == [] {
      assert FinishedCalls(INITIAL) == {};
    } else {
      var s, call := Run(schedule[..|schedule| - 1], outcome), schedule[|schedule| - 1];
      OneReplyPerCall(schedule[..|schedule| - 1], outcome);
      var s' := Run(schedule, outcome);
      if PhaseOf(s', call) == Finished && PhaseOf(s, call) != Finished {
        assert FinishedCalls(s') == FinishedCalls(s) + {call};
      } else {
        assert FinishedCalls(s') == FinishedCalls(s);
      }
    }
  }

  // ---- The shape of the expected log ---------------------------------------

  predicate EndsAt(feed: Feed, n: nat) {
    AllChunks(feed, n) && !feed(n).Next?
  }

  function ChunksOf(feed: Feed, n: nat): seq<Chunk>
    requires AllChunks(feed, n)
  {
    seq(n, i requires 0 <= i < n => feed(i).chunk)
  }

  function Yielded(log: seq<Reply>): seq<Chunk> {
    if log == [] then []
    else Yielded(log[..|log| - 1]) + (match log[|log| - 1] case Yield(c) => [c] case _ => [])
  }

  function Raised(log: seq<Reply>): seq<Failure> {
    if log == [] then []
    else Raised(log[..|log| - 1]) + (match log[|log| - 1] case Raise(e) => [e] case _ => [])
  }

  function Min(a: nat, b: nat): nat {
    if a < b then a else b
  }

  lemma LogSnoc(outcome: Outcome, m: nat)
    requires m > 0
    ensures ExpectedLog(outcome, m)[..m - 1] == ExpectedLog(outcome, m - 1)
    ensures ExpectedLog(outcome, m)[m - 1] == Expected(outcome, m - 1)
  {
  }

  lemma ExpectedShape(feed: Feed, n: nat, k: nat)
    requires EndsAt(feed, n)
    ensures k < n ==> Expected(Ok(feed), k) == Yield(feed(k).chunk)
    ensures k == n ==> Expected(Ok(feed), k) == if feed(n).Fail? then Raise(feed(n).err) else StopIteration
    ensures k > n ==> Expected(Ok(feed), k) == StopIteration
  {
    assert k <= n ==> AllChunks(feed, k);
  }

  // Of a feed that ends at poll n, the first n replies yield its chunks, ...
  lemma {:induction false} LogYields(feed: Feed, n: nat, m: nat)
    requires EndsAt(feed, n)
    ensures Yielded(ExpectedLog(Ok(feed), m)) == ChunksOf(feed, n)[..Min(m, n)]
  {
    if m > 0 {
      LogYields(feed, n, m - 1);
      LogSnoc(Ok(feed), m);
      ExpectedShape(feed, n, m - 1);
      if m <= n {
        assert ChunksOf(feed, n)[..m] == ChunksOf(feed, n)[..m - 1] + [feed(m - 1).chunk];
      }
    }
  }

  // ... an error is raised once, ...
  lemma {:induction false} LogRaises(feed: Feed, n: nat, m: nat)
    requires EndsAt(feed, n)
    ensures Raised(ExpectedLog(Ok(feed), m)) == if m > n && feed(n).Fail? then [feed(n).err] else []
  {
    if m > 0 {
      LogRaises(feed, n, m - 1);
      LogSnoc(Ok(feed), m);
      ExpectedShape(feed, n, m - 1);
    }
  }

  // ... and every later call stops.
  lemma LogStops(feed: Feed, n: nat, m: nat)
    requires EndsAt(feed, n)
    ensures forall k :: n < k < m ==> ExpectedLog(Ok(feed), m)[k] == StopIteration
  {
    forall k | n < k < m ensures ExpectedLog(Ok(feed), m)[k] == StopIteration {
      ExpectedShape(feed, n, k);
    }
  }

  // A start that failed is raised once, to the first caller, and never tried again.
  lemma FailedStartIsRaisedOnce(schedule: seq<nat>, e: Failure)
    ensures var s := Run(schedule, Err(e));
            && s.executions <= 1
            && forall k :: 0 <= k < |s.log| ==> s.log[k] == if k == 0 then Raise(e) else StopIteration
  {
    Linear(schedule, Err(e));
  }

  // ---- Draining the same stream --------------------------------------------

  datatype Tokens = Tokens(requestId: string, text: string, usage: Usage, finish: Option<FinishReason>)

  const NO_USAGE := Usage(0, 0, 0, 0)
  const NO_TOKENS := Tokens("", "", NO_USAGE, None)

  // `+=` on u32 counters, as a release build wraps it.
  function Wrapping(a: u32, b: u32): u32 {
    (a as nat + b as nat) % U32_SPAN
  }

  function AddUsage(a: Usage, b: Usage): Usage {
    Usage(Wrapping(a.input, b.input), Wrapping(a.output, b.output),
          Wrapping(a.reasoning, b.reasoning), Wrapping(a.cached, b.cached))
  }

  function Append(t: Tokens, c: Chunk): Tokens {
    Tokens(if t.requestId == "" then c.requestId else t.requestId,
           t.text + c.textDelta,
           if c.usage.Some? then AddUsage(t.usage, c.usage.value) else t.usage,
           if c.finish.Some? then c.finish else t.finish)
  }

  function Drained(chunks: seq<Chunk>): Tokens {
    if chunks == [] then NO_TOKENS else Append(Drained(chunks[..|chunks| - 1]), chunks[|chunks| - 1])
  }

  // The aggregating call, on a stream that ends after some polls.
  method Execute(outcome: Outcome, ghost n: nat) returns (r: Result<Tokens, Failure>)
    requires outcome.Ok? ==> EndsAt(outcome.value, n)
    ensures r == match outcome
                 case Err(e) => Err(e)
                 case Ok(feed) =>
                   match feed(n)
                   case Fail(e) => Err(e)
                   case _ => Ok(Drained(ChunksOf(feed, n)))
  {
    if outcome.Err? {
      return Err(outcome.error);
    }
    var feed := outcome.value;
    var tokens, polled := NO_TOKENS, 0;
    while true
      invariant polled <= n && tokens == Drained(ChunksOf(feed, polled))
      decreases n - polled
    {
      match feed(polled) {
        case End => return Ok(tokens);
        case Fail(e) => return Err(e);
        case Next(chunk) =>
          assert ChunksOf(feed, polled + 1)[..polled] == ChunksOf(feed, polled);
          if tokens.requestId == "" {
            tokens := tokens.(requestId := chunk.requestId);
          }
          tokens := tokens.(text := tokens.text + chunk.textDelta);
          if chunk.usage.Some? {
            tokens := tokens.(usage := AddUsage(tokens.usage, chunk.usage.value));
          }
          if chunk.finish.Some? {
            tokens := tokens.(finish := chunk.finish);
          }
          polled := polled + 1;
      }
    }
  }

  // ---- What draining adds up to --------------------------------------------

  function Text(chunks: seq<Chunk>): string {
    if chunks == [] then "" else chunks[0].textDelta + Text(chunks[1..])
  }

  function Total(chunks: seq<Chunk>, count: Usage -> u32): nat {
    if chunks == [] then 0
    else (match chunks[0].usage case Some(u) => count(u) as nat case None => 0) + Total(chunks[1..], count)
  }

  function FirstRequestId(chunks: seq<Chunk>): string {
    if chunks == [] then ""
    else if chunks[0].requestId != "" then chunks[0].requestId
    else FirstRequestId(chunks[1..])
  }

  function LastFinish(chunks: seq<Chunk>): Option<FinishReason> {
    if chunks == [] then None
    else if LastFinish(chunks[1..]).Some? then LastFinish(chunks[1..])
    else chunks[0].finish
  }

  lemma {:induction false} TextSnoc(chunks: seq<Chunk>, c: Chunk)
    ensures Text(chunks + [c]) == Text(chunks) + c.textDelta
  {
    if chunks != [] {
      assert (chunks + [c])[1..] == chunks[1..] + [c];
      TextSnoc(chunks[1..], c);
    }
  }

  lemma {:induction false} TotalSnoc(chunks: seq<Chunk>, c: Chunk, count: Usage -> u32)
    ensures Total(chunks + [c], count) == Total(chunks, count) + (match c.usage case Some(u) => count(u) as nat case None => 0)
  {
    if chunks != [] {
      assert (chunks + [c])[1..] == chunks[1..] + [c];
      TotalSnoc(chunks[1..], c, count);
    }
  }

  lemma {:induction false} FirstRequestIdSnoc(chunks: seq<Chunk>, c: Chunk)
    ensures FirstRequestId(chunks + [c]) == if FirstRequestId(chunks) == "" then c.requestId else FirstRequestId(chunks)
  {
    if chunks != [] {
      assert (chunks + [c])[1..] == chunks[1..] + [c];
      FirstRequestIdSnoc(chunks[1..], c);
    }
  }

  lemma {:induction false} LastFinishSnoc(chunks: seq<Chunk>, c: Chunk)
    ensures LastFinish(chunks + [c]) == if c.finish.Some? then c.finish else LastFinish(chunks)
  {
    if chunks != [] {
      assert (chunks + [c])[1..] == chunks[1..] + [c];
      LastFinishSnoc(chunks[1..], c);
    }
  }

  // A counter kept modulo 2^32 against the true total.
  lemma WrappedTotal(before: nat, kept: u32, b: u32)
    requires kept == before % U32_SPAN
    ensures Wrapping(kept, b) == (before + b) % U32_SPAN
  {
  }

  // A component of the usage that `AddUsage` adds.
  predicate Additive(count: Usage -> u32, a: Usage, b: Usage) {
    count(AddUsage(a, b)) == Wrapping(count(a), count(b))
  }

  lemma {:induction false} CounterAddsUp(chunks: seq<Chunk>, count: Usage -> u32)
    requires count(NO_USAGE) == 0 && forall a, b :: Additive(count, a, b)
    ensures count(Drained(chunks).usage) == Total(chunks, count) % U32_SPAN
  {
    if chunks != [] {
      var front, c := chunks[..|chunks| - 1], chunks[|chunks| - 1];
      assert chunks == front + [c];
      CounterAddsUp(front, count);
      TotalSnoc(front, c, count);
      if c.usage.Some? {
        assert Additive(count, Drained(front).usage, c.usage.value);
        WrappedTotal(Total(front, count), count(Drained(front).usage), count(c.usage.value));
      }
    }
  }

  lemma {:induction false} FieldsAddUp(chunks: seq<Chunk>)
    ensures var t := Drained(chunks);
            t.text == Text(chunks) && t.requestId == FirstRequestId(chunks) && t.finish == LastFinish(chunks)
  {
    if chunks != [] {
      var front, c := chunks[..|chunks| - 1], chunks[|chunks| - 1];
      assert chunks == front + [c];
      FieldsAddUp(front);
      TextSnoc(front, c);
      FirstRequestIdSnoc(front, c);
      LastFinishSnoc(front, c);
    }
  }

  // Draining gives the concatenated text, the summed usage (each counter modulo
  // 2^32), the first non-empty request id and the last finish reason.
  lemma DrainedAddsUp(chunks: seq<Chunk>)
    ensures var t := Drained(chunks);
            && t.text == Text(chunks)
            && t.usage.input == Total(chunks, (u: Usage) => u.input) % U32_SPAN
            && t.usage.output == Total(chunks, (u: Usage) => u.output) % U32_SPAN
            && t.usage.reasoning == Total(chunks, (u: Usage) => u.reasoning) % U32_SPAN
            && t.usage.cached == Total(chunks, (u: Usage) => u.cached) % U32_SPAN
            && t.requestId == FirstRequestId(chunks)
            && t.finish == LastFinish(chunks)
  {
    FieldsAddUp(chunks);
    CounterAddsUp(chunks, (u: Usage) => u.input);
    CounterAddsUp(chunks, (u: Usage) => u.output);
    CounterAddsUp(chunks, (u: Usage) => u.reasoning);
    CounterAddsUp(chunks, (u: Usage) => u.cached);
  }

  // Streaming and draining agree: however the calls interleave, once they have
  // run past the end, what they were handed is what draining would add up.
  lemma StreamAndDrainAgree(schedule: seq<nat>, feed: Feed, n: nat)
    requires EndsAt(feed, n) && |Run(schedule, Ok(feed)).log| > n
    ensures var log := Run(schedule, Ok(feed)).log;
            && Yielded(log) == ChunksOf(feed, n)
            && Raised(log) == (if feed(n).Fail? then [feed(n).err] else [])
            && Drained(Yielded(log)).text == Text(ChunksOf(feed, n))
  {
    var m := |Run(schedule, Ok(feed)).log|;
    Linear(schedule, Ok(feed));
    LogYields(feed, n, m);
    LogRaises(feed, n, m);
    assert ChunksOf(feed, n)[..n] == ChunksOf(feed, n);
    FieldsAddUp(ChunksOf(feed, n));
  }
}
