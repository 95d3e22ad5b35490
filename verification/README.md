# Verified model of the inference runtime's core

This project models eight components of the inference runtime and proves what
they promise. It checks with `dafny verify dfyconfig.toml` (Dafny 4.11).

| component | files |
|---|---|
| Priority queue and remote engine: a bounded queue feeding N workers whose idle signals are anonymous | `RequestQueue`, `Engine`, `EngineProtocol`, `EngineLaws` |
| Retry loop of a worker and its backoff arithmetic | `Errors`, `Backoff`, `Retry`, `Worker` |
| Circuit breaker, in sequence and under races | `Breaker`, `BreakerRaces` |
| Fixed-window rate limiter | `RateLimit` |
| Base64 codec (section 4 of RFC 4648) | `Base64` |
| ONNX generation loop and sampler | `Generate`, `GenerationLaws`, `Sampling`, `SamplingLaws` |
| Audit report printer, parser and regression check | `Text`, `Audit`, `AuditSearch`, `AuditLaws`, `AuditChecks` |
| Stream state machines: token stream, speech downlinks | `TokenStream`, `Transcripts`, `Deepgram`, `AssemblyAi`, `ElevenLabs` |

`Wrappers` and `Channels` hold shared types. Code that changes state is written
as classes and methods, each proved equal to a specification function; the
theorems are lemmas about those functions, over every input, run or
interleaving.

## Where the code does less than one would expect

- Engine: an entry marked idle may belong to a busy worker. Its flag can be
  trusted if and only if there is at most one worker or no queue capacity
  (`FlagsFaithfulExactly`); the counts are right all the same
  (`AggregateCountsHold`).
- Backoff: the attempt number is cast to a signed exponent, so the delay
  collapses at attempt 2^31 (`DelayCollapsesAtSignChange`);
  `DelayGrowsExactly` says for which policies it does not. For a multiplier
  below one it jumps up instead, past initial * m^attempt
  (`DelayJumpsAtSignChange`; `DelayWithinTermExactly` gives the exact condition).
- Breaker: a stamp of zero means "not open", so a threshold failure recorded at
  nanosecond zero does not open it (`StampZeroBreaksRefinement`;
  `BreakerRefinesHistory` gives the exact condition); a failed half-open probe
  does not restart the open period (`HalfOpenSurvivesFailedProbes`), so any
  number of probes pass where the comment speaks of one; a later, shorter
  force-open cuts an earlier one short (`LaterForceCutsEarlierShort`,
  `ErasingIsInvisibleExactly`); under races the stamp can be overwritten, exactly
  when more calls fail than the threshold (`StampMovesExactly`).
- Rate limiter: k minutes can see k + 1 budgets, for every k
  (`BurstReachesTheBound`).
- Base64: the decoder accepts texts that no encoder writes
  (`AcceptedExamples`, `ReencodesExactlyCanonical`).
- Generation: a decode that does not extend the text already streamed makes the
  chunks add up to something else than the final decode (`RetractionShows`,
  `Reassembly`).
- Audit: crates named "crates" or like a metric are read back wrongly
  (`RoundTripExactly`), so a tree can fail its own report (`SelfCheckCanFail`,
  `SelfCheckExactly`). With braces in names, one crate can also be the text
  before another that begins with a colon, and is then read back as that one
  (`BracesCanCollide`); `ParsedExactly` covers every map of quote-free names.
- Deepgram and AssemblyAI: the comment in the code asks for exactly one
  terminal chunk; there is one exactly when the provider marked at most one
  (`OneFinalExactly`, and a `TwoFinals` for each). An abnormal close loses every
  buffered chunk (`ErrorsComeFirst`).

## Model

| member | source | states |
|---|---|---|
| `RequestQueues.RequestQueue.Push` | crates/inference-remote-core/src/queue.rs:83-91 | rejects exactly when full, handing the request back and leaving the queue as it was; otherwise queues it stamped with the next arrival number |
| `RequestQueues.RequestQueue.Pop` | crates/inference-remote-core/src/queue.rs:93-95 | removes and returns the unique entry that beats all others under `cmp`, or nothing when the queue is empty |
| `RequestQueues.RequestQueue.IsFull` | crates/inference-remote-core/src/queue.rs:74-76 | true exactly at capacity |
| `RequestQueues.CmpOrdersContents` | crates/inference-remote-core/src/queue.rs:34-51 | `cmp` is a strict total order on the contents of any well-formed queue |
| `RequestQueues.TopIsUnique` | crates/inference-remote-core/src/queue.rs:45-51 | exactly one queued entry beats every other, so `pop` has no choice |
| `RequestQueues.TopIsMostUrgent` | crates/inference-remote-core/src/queue.rs:10-51 | the popped entry: no queued one is more urgent (Critical, High, Normal, Background), and none as urgent is older |
| `RequestQueues.UrgentFirst` | crates/inference-remote-core/src/queue.rs:10-95 | over every run: a queued request is served before any less urgent one |
| `RequestQueues.AcceptedExactly` | crates/inference-remote-core/src/queue.rs:83-91 | a push is accepted exactly while fewer than `capacity` wait, and keeps its priority and body, youngest of all |
| `RequestQueues.RunKeepsWellFormed` | crates/inference-remote-core/src/queue.rs:59-96 | over every run of pushes and pops: capacity never exceeded, arrival numbers distinct and below the next one |
| `RequestQueues.NothingLostOrDuplicated` | crates/inference-remote-core/src/queue.rs:83-95 | over every run: present before + accepted = served + still queued, as multisets |
| `RequestQueues.ServedAreKnown` | crates/inference-remote-core/src/queue.rs:83-95 | no request is served twice, and each was present or accepted later |
| `RequestQueues.AheadIffBeats` | crates/inference-remote-core/src/queue.rs:45-51 | what is served before r beats r, and everything present that beats r is served before it |
| `RequestQueues.BoundedOvertaking` | crates/inference-remote-core/src/queue.rs:45-95 | the number of pops before r = entries present that are more urgent, or as urgent and older + strictly more urgent requests accepted later and served first |
| `RequestQueues.AheadOfNewcomer` | crates/inference-remote-core/src/queue.rs:83-91 | at acceptance, what is ahead of a request is exactly the queued entries of equal or higher priority |
| `RequestQueues.FifoWithinPriority` | crates/inference-remote-core/src/queue.rs:45-51 | same-priority requests leave in acceptance order, across any interleaving |
| `RemoteEngine.EngineCore.constructor` | crates/inference-remote-core/src/engine.rs:88-103 | an empty queue, all workers idle, counters at zero |
| `RemoteEngine.EngineCore.Enqueue` | crates/inference-remote-core/src/engine.rs:109-128 | a full queue answers backpressure and counts a rejection; otherwise the request is queued and counted |
| `RemoteEngine.EngineCore.DispatchTo` | crates/inference-remote-core/src/engine.rs:135-140 | the top request goes to the chosen idle worker, and flags and counters follow |
| `RemoteEngine.EngineCore.TryDispatch` | crates/inference-remote-core/src/engine.rs:130-142 | dispatches, in order, until the queue is empty or no entry is idle |
| `RemoteEngine.EngineCore.Handle` | crates/inference-remote-core/src/engine.rs:193-215 | one message: admit and dispatch, or free the first busy entry and dispatch |
| `EngineLaws.DispatchSends` | crates/inference-remote-core/src/engine.rs:130-142 | a dispatch loop sends as many requests as there are both requests and idle entries: those that many pops serve, in order, the i-th to the i-th idle entry |
| `EngineLaws.FreesFirstBusy` | crates/inference-remote-core/src/engine.rs:199-213 | an idle message makes the first busy entry idle and counts one completion |
| `EngineLaws.RejectsExactlyAtCapacity` | crates/inference-remote-core/src/engine.rs:109-128 | a request is counted as rejected exactly when `capacity` requests wait |
| `EngineLaws.ArrivalsAreAnswered` | crates/inference-remote-core/src/engine.rs:109-215 | over all runs: arrivals = admitted + rejected + unread in number, and while none is rejected they are admitted as they came, in order |
| `EngineProtocol.StepKeepsInv` | crates/inference-remote-core/src/engine.rs:109-215 | every step (arrival, engine turn, worker finish, signal forward) keeps the aggregate counts and the one-place-per-request invariant |
| `EngineProtocol.IdleConsistent` | crates/inference-remote-core/src/engine.rs:199-213 | an idle message always finds a busy entry to free, and its counter decrement never saturates |
| `EngineProtocol.OneDispatchConsistent` | crates/inference-remote-core/src/engine.rs:130-142 | a dispatch moves one request from the queue to a mailbox, and its `queued` decrement never saturates |
| `EngineProtocol.DispatchLoopConsistent` | crates/inference-remote-core/src/engine.rs:130-142 | after the dispatch loop the invariant holds and either the queue is empty or every flag is busy |
| `EngineProtocol.AggregateCountsHold` | crates/inference-remote-core/src/engine.rs:199-213 | over all runs: busy flags = in_flight = requests with workers + idle signals in transit; admitted = queued + in_flight + completed; queue empty or all busy |
| `EngineProtocol.EachAdmittedInOnePlace` | crates/inference-remote-core/src/engine.rs:109-215 | over all runs: each admitted request is in exactly one of queue, mailboxes, finished, and occurs there once |
| `EngineProtocol.StepSpendsWork` | crates/inference-remote-core/src/engine.rs:109-215 | every step other than an arrival lowers a measure of the work left |
| `EngineProtocol.InternalRunsAreBounded` | crates/inference-remote-core/src/engine.rs:182-190 | without arrivals every interleaving stops |
| `EngineProtocol.QuiescentMeansDrained` | crates/inference-remote-core/src/engine.rs:130-142 | where nothing can move, everything admitted is completed and every flag is idle |
| `EngineProtocol.EverythingCompletes` | crates/inference-remote-core/src/engine.rs:130-215 | from any reachable state, a maximal run without arrivals has completed all that was ever admitted |
| `EngineProtocol.MixUpIsUnfaithful` | crates/inference-remote-core/src/engine.rs:199-213 | a concrete run after which an entry marked idle belongs to a worker still busy |
| `EngineProtocol.FlagsFaithfulExactly` | crates/inference-remote-core/src/engine.rs:199-213 | an idle flag can be trusted for its own worker in all runs if and only if there is at most one worker or no queue capacity |
| `Backoff.DelayAtMostMax` | crates/inference-remote-core/src/backoff.rs:34-46 | every delay is at most the configured maximum |
| `Backoff.JitterBounds` | crates/inference-remote-core/src/backoff.rs:37-44 | Equal jitter stays in [floor(c/2), c], Full in [0, c], no jitter is exactly c, for the capped base c |
| `Backoff.FirstPseudoRandoms` | crates/inference-remote-core/src/backoff.rs:48-52 | the pseudo-random shares of the first attempts |
| `Backoff.GrowsAndCaps` | crates/inference-remote-core/src/backoff.rs:34-46 | doubling from 100 ms up to two seconds, and parts of a millisecond dropped |
| `Backoff.DelayGrowsExactly` | crates/inference-remote-core/src/backoff.rs:34-46 | for multipliers of at least one: the un-jittered delay does not shrink from one attempt to the next if and only if the next is not attempt 2^31, or the initial delay is zero, or the multiplier is one, or the longest delay is at most the collapsed one |
| `Backoff.DelayGrows` | crates/inference-remote-core/src/backoff.rs:34-46 | so away from attempt 2^31 it never shrinks |
| `Backoff.DelayCollapsesAtSignChange` | crates/inference-remote-core/src/backoff.rs:35-35 | at attempt 2^31 the cast to a signed exponent makes the delay collapse to zero |
| `Backoff.DelayWithinTermExactly` | crates/inference-remote-core/src/backoff.rs:34-46 | for every multiplier and attempt: an un-jittered delay is at most max(0, initial * m^attempt) if and only if the attempt is below 2^31, or |m| is at least one, or the initial delay is zero and m is not, or m is negative and the attempt odd, or the longest delay is at most that term |
| `Backoff.DelayWithinGeometricTerm` | crates/inference-remote-core/src/backoff.rs:34-46 | under that condition the bound holds whatever the jitter |
| `Backoff.DelayJumpsAtSignChange` | crates/inference-remote-core/src/backoff.rs:35-35 | with a multiplier of one half, attempt 2^31 waits the full maximum, far above that term |
| `Backoff.GeometricClosedForm` | crates/inference-remote-core/src/backoff.rs:34-46 | the sum of those terms times (m - 1) is initial * (m^n - 1) |
| `Retry.RetryGranted` | crates/inference-remote-core/src/retry.rs:48-71 | a retry is granted if and only if the request is idempotent, attempts remain and the error is one of the four retryable ones; it waits exactly the honoured Retry-After, or else at most the maximum |
| `Retry.RetryWaits` | crates/inference-remote-core/src/retry.rs:68-70 | and otherwise exactly the whole milliseconds of min(initial * m^attempt, max) without jitter, of a share of it with full jitter, of half plus half that share with equal jitter |
| `Retry.EqualJitterWaitsHalf` | crates/inference-remote-core/src/retry.rs:68-70 | so with equal jitter at least half of that |
| `Errors.ErrorClasses` | crates/inference-core/src/error.rs:113-133 | the errors that are retried, and those held against the circuit: the same but for rate limits |
| `Worker.RemoteWorker.ForwardStream` | crates/inference-remote-core/src/worker.rs:82-103 | forwards the items up to the first error, and tells an error from a vanished receiver |
| `Worker.RemoteWorker.RunAttempt` | crates/inference-remote-core/src/worker.rs:76-113 | one attempt: gate, call, forward, and the decision to stop or to retry after a delay |
| `Worker.RemoteWorker.ExecuteWithRetries` | crates/inference-remote-core/src/worker.rs:67-115 | output, calls, sleeps and result are those of the specified trace; when the receiver leaves, those up to and including the first attempt of which it misses a part |
| `Worker.RemoteWorker.Dispatch` | crates/inference-remote-core/src/worker.rs:53-65 | a failed dispatch ends with one error message; the number of provider calls is exact for every receiver; exactly one idle signal on every path |
| `Worker.TraceShape` | crates/inference-remote-core/src/worker.rs:73-114 | n sleeps mean attempts 0..n-1 each failed with a retried error, attempt n ended the dispatch, and the output is the concatenation of the Ok prefixes |
| `Worker.CallsAreBounded` | crates/inference-remote-core/src/worker.rs:73-114 | at most max_retries + 1 provider calls, at most one when not idempotent |
| `Worker.OnlyTheLastIsAnError` | crates/inference-remote-core/src/worker.rs:53-65 | the delivered log holds an error only as its last entry, and only if the dispatch failed |
| `Worker.SleepsAreExact` | crates/inference-remote-core/src/retry.rs:48-71 | without jitter, sleep i of a dispatch is exactly min(initial * m^i, max) |
| `Worker.SleepAtMostMaxEach` | crates/inference-remote-core/src/retry.rs:48-71 | without an honoured Retry-After, total sleep is at most max_retries * max |
| `Worker.SleepWithinGeometricSum` | crates/inference-remote-core/src/retry.rs:48-71 | and, for multipliers above one, at most the geometric sum |
| `Breaker.CircuitBreaker.CurrentState` | crates/inference-remote-core/src/circuit_breaker.rs:68-84 | forced-open first, then the stamp and the open duration |
| `Breaker.CircuitBreaker.Check` | crates/inference-remote-core/src/circuit_breaker.rs:88-105 | refuses exactly in the Open state, with the opening and retry times |
| `Breaker.CircuitBreaker.RecordSuccess` | crates/inference-remote-core/src/circuit_breaker.rs:107-110 | clears the counter and the stamp, and nothing else |
| `Breaker.CircuitBreaker.RecordFailure` | crates/inference-remote-core/src/circuit_breaker.rs:114-121 | counts, and stamps only at or above the threshold while the stamp is zero |
| `Breaker.CircuitBreaker.Run` | crates/inference-remote-core/src/circuit_breaker.rs:126-144 | calls only when not open; a success closes, a counted error is recorded, other errors change nothing |
| `Breaker.CircuitBreaker.ForceOpen` | crates/inference-remote-core/src/circuit_breaker.rs:146-148 | replaces the force-open expiry, and nothing else |
| `Breaker.CounterAndForce` | crates/inference-remote-core/src/circuit_breaker.rs:107-148 | for every history: the counter is the number of failures since the last success (mod 2^32), the expiry that of the last force-open |
| `Breaker.StampIsFirst` | crates/inference-remote-core/src/circuit_breaker.rs:114-121 | for every history: the stamp is the time of the first failure since the last success that came at or above the threshold and at a non-zero clock reading, and zero without one |
| `Breaker.StampIsThresholdFailure` | crates/inference-remote-core/src/circuit_breaker.rs:114-121 | for every history: no threshold-th failure, no stamp; otherwise the stamp is that failure's time if and only if its clock reading is not zero |
| `Breaker.BreakerRefinesHistory` | crates/inference-remote-core/src/circuit_breaker.rs:68-84 | for every history and time: the reported state equals the one the history stands for (defined without stamps) if and only if a force-open runs, or the opening failure was not read at zero, or a later failure stamped it and both times are on the same side of the open duration |
| `Breaker.StateBeforeTheClockWraps` | crates/inference-remote-core/src/circuit_breaker.rs:68-84 | so until the 64-bit clock wraps, and with no opening failure at zero: Closed before the threshold-th failure, HalfOpen once the open duration has passed since it, in plain arithmetic |
| `Breaker.OpensAtTheThreshold` | crates/inference-remote-core/src/circuit_breaker.rs:68-121 | after a success and n failures: Closed while n is below the threshold, else Open for the open duration from the threshold-th failure, then HalfOpen |
| `Breaker.ForceHolds` | crates/inference-remote-core/src/circuit_breaker.rs:68-73 | a force-open holds until its time is over, and then no more |
| `Breaker.StampZeroBreaksRefinement` | crates/inference-remote-core/src/circuit_breaker.rs:74-77 | after a threshold failure read at zero the breaker is Closed where the history says otherwise; after a second one it is Open where the history says HalfOpen |
| `Breaker.FailuresDoNotMoveTheStamp` | crates/inference-remote-core/src/circuit_breaker.rs:114-121 | once open, further failures do not restart the open period |
| `Breaker.HalfOpenSurvivesFailedProbes` | crates/inference-remote-core/src/circuit_breaker.rs:114-121 | a half-open breaker stays half-open through any number of failed probes |
| `Breaker.ErasingIsInvisibleExactly` | crates/inference-remote-core/src/circuit_breaker.rs:146-148 | erasing expired force-opens changes the state if and only if the last one expired, an earlier one still runs, and the breaker would not be open anyway |
| `Breaker.LaterForceCutsEarlierShort` | crates/inference-remote-core/src/circuit_breaker.rs:146-148 | two force-opens, the second shorter, after which the breaker is closed while the first would still run |
| `Breaker.RetryHintIsTight` | crates/inference-remote-core/src/circuit_breaker.rs:91-103 | the advertised retry time is within a millisecond of the moment the breaker turns half-open |
| `Breaker.OpeningHintIsTight` | crates/inference-remote-core/src/circuit_breaker.rs:91-103 | the advertised opening time is the true one to the millisecond, and the retry time comes the open duration after it |
| `BreakerRaces.StepKeepsInv` | crates/inference-remote-core/src/circuit_breaker.rs:114-121 | for each atomic step: only a call whose fetch_add reached the threshold stamps, and a non-zero stamp never returns to zero |
| `BreakerRaces.QuiescentOutcome` | crates/inference-remote-core/src/circuit_breaker.rs:114-121 | for every interleaving of k calls: at the end the counter is k (mod 2^32), the breaker is open if and only if k reached the threshold, and its stamp was stored by a call that reached it |
| `BreakerRaces.BelowThreshold` | crates/inference-remote-core/src/circuit_breaker.rs:114-121 | with fewer calls than the threshold, no interleaving ever stamps |
| `BreakerRaces.StampMovesExactly` | crates/inference-remote-core/src/circuit_breaker.rs:114-121 | some interleaving of k calls overwrites a stamp if and only if at least two of them reach the threshold: if and only if k exceeds it, for k below 2^32 |
| `BreakerRaces.SerialCall` | crates/inference-remote-core/src/circuit_breaker.rs:114-121 | one call taken without interruption does what the sequential breaker does |
| `BreakerRaces.StampIsAReading` | crates/inference-remote-core/src/circuit_breaker.rs:114-121 | a stamp is always the clock reading of a turn that stored it |
| `RateLimit.RateLimiter.RotateWindowIfNeeded` | crates/inference-remote-core/src/rate_limit.rs:100-118 | starts a window on first use and after sixty seconds, clearing its counters |
| `RateLimit.RateLimiter.Acquire` | crates/inference-remote-core/src/rate_limit.rs:120-154 | grants exactly when both budgets allow it; a rejection charges neither counter |
| `RateLimit.RateLimiter.MergeRemoteDeltaRequests` | crates/inference-remote-core/src/rate_limit.rs:92-94 | merges into the shared counter only |
| `RateLimit.RateLimiter.MergeRemoteDeltaTokens` | crates/inference-remote-core/src/rate_limit.rs:96-98 | merges into the shared counter only |
| `RateLimit.CountersAreGrantTotals` | crates/inference-remote-core/src/rate_limit.rs:100-154 | for every run: the window counters equal the sum of what was granted in that window |
| `RateLimit.WindowBegins` | crates/inference-remote-core/src/rate_limit.rs:100-118 | a window begins with the second clock reading of a call that finds sixty seconds gone, granted or not |
| `RateLimit.GrantedExactly` | crates/inference-remote-core/src/rate_limit.rs:120-154 | after every run: a call is granted if and only if what was granted in its window leaves room for it in both budgets, and is refused for tokens only if its requests fit |
| `RateLimit.GrantIsWhatWasWanted` | crates/inference-remote-core/src/rate_limit.rs:120-154 | and what is granted is what was wanted |
| `RateLimit.WindowWithinCap` | crates/inference-remote-core/src/rate_limit.rs:120-154 | for every run and window: grants stay within each budget |
| `RateLimit.GrantsAreApart` | crates/inference-remote-core/src/rate_limit.rs:100-118 | grants n windows apart are at least n - 1 window lengths apart in time |
| `RateLimit.SlidingWindowBound` | crates/inference-remote-core/src/rate_limit.rs:100-154 | any interval of k minutes grants at most (k+1) times each per-minute budget |
| `RateLimit.BurstReachesTheBound` | crates/inference-remote-core/src/rate_limit.rs:100-154 | for every k > 0 and both budgets: a run that grants exactly k + 1 budgets within k minutes |
| `RateLimit.MergesDoNotMatter` | crates/inference-remote-core/src/rate_limit.rs:92-98 | interleaved merges never change the grant sequence |
| `RateLimit.OwnSpendIsPublished` | crates/inference-remote-core/src/rate_limit.rs:120-154 | this node's own shared count never falls behind what it granted in the window |
| `RateLimit.OwnSpendIsExact` | crates/inference-remote-core/src/rate_limit.rs:120-154 | and is exactly that while no peer reports about this node |
| `RateLimit.MergeKeepsLarger` | crates/inference-remote-core/src/rate_limit.rs:92-98 | merging keeps the larger count of every node |
| `Base64.Encode` | crates/inference-core/src/audio.rs:671-700 | produces the specified text: whole groups, then the padded rest |
| `Base64.EncodeGroup` | crates/inference-core/src/audio.rs:675-679 | the shifts and masks of one group give its four digits |
| `Base64.EncodeRest` | crates/inference-core/src/audio.rs:681-698 | one or two left-over bytes give two or three digits and padding |
| `Base64.TableLetters` | crates/inference-core/src/audio.rs:669-669 | the alphabet is A-Z, a-z, 0-9, + and / |
| `Base64.CutKeepsTheNumber` | crates/inference-core/src/audio.rs:675-679 | three bytes and their four digits are the same number, most significant first |
| `Base64.EncodedParts` | crates/inference-core/src/audio.rs:671-700 | each group is written as its four digits, one or two last bytes as two or three digits and padding signs |
| `Base64.Decode` | crates/inference-core/src/audio.rs:702-725 | the streaming loop computes the specified result, failing on the first foreign character |
| `Base64.TrimEndTakesPadding` | crates/inference-core/src/audio.rs:703-703 | exactly the padding signs at the end are ignored |
| `Base64.Accumulate` | crates/inference-core/src/audio.rs:716-722 | one iteration keeps the accumulator in range, so nothing is shifted out or cut off |
| `Base64.FeedStaysInRange` | crates/inference-core/src/audio.rs:716-722 | after each iteration at most six bits are pending, and neither the shift nor the cast overflows |
| `Base64.FeedAllUnpacks` | crates/inference-core/src/audio.rs:705-723 | feeding digits one by one gives the group-wise inverse of packing |
| `Base64.RoundTrip` | crates/inference-core/src/audio.rs:671-725 | decoding an encoding gives back the bytes, for every byte sequence |
| `Base64.EncodeIsInjective` | crates/inference-core/src/audio.rs:671-700 | different bytes have different encodings |
| `Base64.EncodedLength` | crates/inference-core/src/audio.rs:671-700 | the length is 4 * ceil(n / 3) |
| `Base64.DecodeOutcome` | crates/inference-core/src/audio.rs:702-725 | decoding fails if and only if a character left after trimming is foreign; k characters give floor(6k/8) bytes |
| `Base64.ReencodesExactlyCanonical` | crates/inference-core/src/audio.rs:702-725 | encoding what was decoded restores the text if and only if it was canonical (section 3.5 of RFC 4648) |
| `Base64.NonCanonicalIsAccepted` | crates/inference-core/src/audio.rs:702-725 | any two digits are decoded without their padding, and with it whatever their stray bits; neither text is one an encoder writes, the padded one unless the stray bits are zero |
| `Base64.AcceptedExamples` | crates/inference-core/src/audio.rs:702-725 | AA and AB== are decoded, and encoded again as other texts |
| `Generate.Generator.RunSession` | crates/inference-runtime-ort/src/generate.rs:157-196 | the tensors built for a step make the session answer what it would for the whole sequence |
| `Generate.Generator.Produce` | crates/inference-runtime-ort/src/generate.rs:195-250 | one step yields the reference's next token and decode, and the cache of the whole sequence |
| `Generate.Generator.Compute` | crates/inference-runtime-ort/src/generate.rs:156-250 | the first half of a pass records the one expected session call and agrees with the reference |
| `Generate.Generator.EmitDelta` | crates/inference-runtime-ort/src/generate.rs:251-267 | sends the new suffix unless it is withheld or empty, and reports a vanished receiver |
| `Generate.Generator.EmitRound` | crates/inference-runtime-ort/src/generate.rs:251-267 | so the stream grows by one round, as far as the receiver listens |
| `Generate.Generator.Judge` | crates/inference-runtime-ort/src/generate.rs:269-289 | EOS, then the token limit, then the stop strings, in that order |
| `Generate.Generator.Advance` | crates/inference-runtime-ort/src/generate.rs:239-291 | the second half of a step keeps the loop in agreement with the reference |
| `Generate.Generator.Turn` | crates/inference-runtime-ort/src/generate.rs:156-292 | one iteration of the loop agrees with one round of the reference, or ends with the reference's outcome |
| `Generate.Generator.Flush` | crates/inference-runtime-ort/src/generate.rs:294-316 | the last message carries the remaining text, the usage and the finish reason |
| `Generate.Generator.Loop` | crates/inference-runtime-ort/src/generate.rs:155-316 | from its head on the loop sends the reference's output, and calls the session as often as StopsAfter says |
| `Generate.Generator.RunLoop` | crates/inference-runtime-ort/src/generate.rs:117-318 | for every prompt, sampler state, limit, EOS, stop set and receiver: the KV-cache loop sends what stateless recomputation determines; the recorded calls are the expected ones, and exactly one for each round up to the end or to the first that its receiver misses |
| `Generate.Generator.RunGeneration` | crates/inference-runtime-ort/src/generate.rs:89-111 | the task's whole output, including a loop error reported as the last message |
| `GenerationLaws.StopLaw` | crates/inference-runtime-ort/src/generate.rs:269-315 | 1 <= n <= max(1, max_new); finish is Length if and only if the last token is not EOS and n >= max_new; no earlier token is EOS and no earlier text holds a stop string; failures come only from the session or the tokenizer |
| `GenerationLaws.RoundsAreDecodes` | crates/inference-runtime-ort/src/generate.rs:244-250 | the text of each round is the decode of every token up to it |
| `GenerationLaws.TokensAreSampled` | crates/inference-runtime-ort/src/generate.rs:195-217 | token i is what the sampler answers to the logits of the prompt and all tokens before it, in the state that sampling token i - 1 left |
| `GenerationLaws.SamplerMovesOn` | crates/inference-runtime-ort/src/generate.rs:217-217 | a sampler that answers its state and counts it up gives 0, then 1 |
| `GenerationLaws.FailsWithItsError` | crates/inference-runtime-ort/src/generate.rs:195-250 | a failed run fails with the error of the session or of the tokenizer in the round after its last |
| `GenerationLaws.LastMessageCloses` | crates/inference-runtime-ort/src/generate.rs:294-316 | all messages but the last carry text alone; the last carries the error, or the reason and the numbers of tokens in and out |
| `GenerationLaws.UnsupportedLogits` | crates/inference-runtime-ort/src/generate.rs:132-140 | without 32-bit float logits that error is the only message |
| `GenerationLaws.CallsAreDetermined` | crates/inference-runtime-ort/src/generate.rs:155-292 | that number is the only one; with a receiver that hears every delta it is the number of rounds, and one more if a round failed |
| `GenerationLaws.FedOnceInOrder` | crates/inference-runtime-ort/src/generate.rs:156-181 | the calls a run has recorded feed the prompt and then each token once, in order, and their position ids are 0, 1, 2, ... without gap or repeat |
| `GenerationLaws.MaskCoversAllIds` | crates/inference-runtime-ort/src/generate.rs:164-175 | each recorded call has a mask of as many ones as there are ids so far if the topology takes a mask, and the cache of all but those it feeds |
| `GenerationLaws.Reassembly` | crates/inference-runtime-ort/src/generate.rs:244-316 | the deltas and the flush add up to the final decode if and only if no decode retracted accounted text |
| `GenerationLaws.NothingElseIsHeldBack` | crates/inference-runtime-ort/src/generate.rs:401-413 | everything decoded has been streamed unless the decode ends in U+FFFD or retracted |
| `GenerationLaws.RetractionShows` | crates/inference-runtime-ort/src/generate.rs:244-316 | decodes "a" and then "b": the chunks add up to "ab" |
| `GenerationLaws.PartialCharactersAreHeldBack` | crates/inference-runtime-ort/src/generate.rs:401-413 | a delta ends in U+FFFD if and only if a retraction resends such a text whole |
| `Sampling.ArgMax` | crates/inference-runtime-ort/src/sampling.rs:71-83 | agrees with the first position of a largest logit |
| `Sampling.ArgMaxOf` | crates/inference-runtime-ort/src/sampling.rs:71-83 | that position: no logit is larger, and every earlier one is smaller |
| `Sampling.Normalise` | crates/inference-runtime-ort/src/sampling.rs:54-60 | divides every weight in place by their sum |
| `Sampling.SoftmaxOf` | crates/inference-runtime-ort/src/sampling.rs:85-95 | the exponentials of the scores less their maximum, divided by their sum |
| `Sampling.FindCutoff` | crates/inference-runtime-ort/src/sampling.rs:44-52 | the running sum stops at the specified cutoff |
| `Sampling.Truncate` | crates/inference-runtime-ort/src/sampling.rs:41-62 | sort, cut and renormalise compute the specified top-p survivors |
| `Sampling.DrawFrom` | crates/inference-runtime-ort/src/sampling.rs:64-68 | the weighted choice, and the first survivor or the arg-max where none can be made |
| `Sampling.SampleNext` | crates/inference-runtime-ort/src/sampling.rs:16-69 | the whole pipeline computes the specified token |
| `SamplingLaws.SoftmaxIsADistribution` | crates/inference-runtime-ort/src/sampling.rs:85-95 | positive weights that sum to one and keep the order of the scores |
| `SamplingLaws.TopKKeepsTheBest` | crates/inference-runtime-ort/src/sampling.rs:30-37 | top-k keeps k distinct tokens with their own scores, none below a dropped one |
| `SamplingLaws.NucleusIsSmallest` | crates/inference-runtime-ort/src/sampling.rs:41-53 | top-p keeps a non-empty set of mass at least p, and every smaller set of tokens has mass below p |
| `SamplingLaws.NormalisedIsADistribution` | crates/inference-runtime-ort/src/sampling.rs:54-60 | renormalised weights sum to one and keep their proportions |
| `SamplingLaws.SurvivorsAreADistribution` | crates/inference-runtime-ort/src/sampling.rs:30-62 | after both cuts the weights sum to one, each the token's share of the surviving mass |
| `SamplingLaws.SurvivorsOutrank` | crates/inference-runtime-ort/src/sampling.rs:30-53 | no token that either cut dropped has a larger logit than any survivor |
| `SamplingLaws.SampledToken` | crates/inference-runtime-ort/src/sampling.rs:16-69 | the returned token is a survivor, beats every dropped one, and with k = 1 beats all |
| `SamplingLaws.SampledIsChosen` | crates/inference-runtime-ort/src/sampling.rs:64-68 | it is the survivor at the index that the weighted choice answers for the survivors' weights, and the random state is the choice's |
| `SamplingLaws.ChoiceDecides` | crates/inference-runtime-ort/src/sampling.rs:64-68 | two random states give the same token if and only if the choice answers the same index |
| `SamplingLaws.SurvivorsAreDistinct` | crates/inference-runtime-ort/src/sampling.rs:30-53 | no token survives twice |
| `SamplingLaws.WeightsFollowLogits` | crates/inference-runtime-ort/src/sampling.rs:25-39 | each candidate weighs exp(logit / temperature - the largest such quotient), as a share of one total |
| `SamplingLaws.GreedyTakesTheFirstLargest` | crates/inference-runtime-ort/src/sampling.rs:21-24 | a temperature of zero or less takes the first largest logit and draws nothing |
| `SamplingLaws.DefaultTemperature` | crates/inference-runtime-ort/src/sampling.rs:20-20 | no temperature means one |
| `Audit.WriteCounts` | xtask/src/main.rs:827-850 | appends the metrics in order, comma-separated |
| `Audit.AuditJson` | xtask/src/main.rs:811-825 | the two loops write exactly the text that the round-trip lemmas describe |
| `AuditChecks.ReportText` | xtask/src/main.rs:811-850 | the printed text: crates in order and the totals, each as its fourteen rows |
| `Audit.ParseJsonCrate` | xtask/src/main.rs:852-885 | reads the counts between the first braces after the first occurrence of the key |
| `AuditChecks.BodyMeans` | xtask/src/main.rs:859-884 | a body is read exactly when every token with a colon has a number after it, and a metric has the value of the last token naming it, or zero |
| `Audit.CheckMetric` | xtask/src/main.rs:614-621 | records a regression exactly when the current count exceeds the baseline |
| `Audit.CheckCrate` | xtask/src/main.rs:514-600 | all twelve checked metrics of one crate, against its baseline or zero |
| `Audit.CheckAgainst` | xtask/src/main.rs:512-600 | all crates in order |
| `AuditLaws.RoundTrip` | xtask/src/main.rs:811-885 | a crate whose name is none of the report's own keys, nor the text before a crate that begins with a colon, is read back with exactly its counts |
| `AuditLaws.CollidingName` | xtask/src/main.rs:852-885 | a name that is the text before such a crate is read back as that crate, from the colon on |
| `AuditLaws.ParsedExactly` | xtask/src/main.rs:811-885 | for every map of quote-free names: what each crate is read back as |
| `AuditLaws.AbsentName` | xtask/src/main.rs:852-885 | a name that is not in the report, nor the text before a crate, is not found |
| `AuditLaws.TotalName` | xtask/src/main.rs:852-885 | except that "total" finds the totals |
| `AuditLaws.MetricName` | xtask/src/main.rs:852-885 | a crate named like a metric is read back as the first crate if it is the first, and from the second crate's header otherwise, whatever braces the names hold |
| `AuditLaws.CratesName` | xtask/src/main.rs:852-885 | the name "crates" is read from inside the first crate's name |
| `AuditLaws.RoundTripExactly` | xtask/src/main.rs:811-885 | for names without quotes or braces: the round trip holds if and only if the name is not "crates" and, when it is a metric, it is among the first two or has the second's counts |
| `AuditLaws.BracesCanCollide` | xtask/src/main.rs:811-885 | two crates with braces in a name, the second of which is read back with the first one's counts |
| `AuditChecks.RegressionsAreListed` | xtask/src/main.rs:512-608 | the list: for every crate in order, exactly those of the twelve metrics that are above its baseline (or zero), in order, with both numbers |
| `AuditChecks.CheckExact` | xtask/src/main.rs:512-608 | no regressions if and only if no crate is above its baseline in any of the twelve, field by field |
| `AuditChecks.OneMoreUnwrap` | xtask/src/main.rs:512-608 | one more unwrap than the report allows is reported as just that |
| `AuditChecks.SelfCheck` | xtask/src/main.rs:503-608 | for every map of quote-free names: a tree passes its own report if and only if no crate exceeds what is found for it |
| `AuditChecks.SelfCheckExactly` | xtask/src/main.rs:503-608 | for brace-free names: it passes if and only if a crate called "crates" has nothing to report and each metric-named crate from the third on does not exceed the second |
| `AuditChecks.SelfCheckPasses` | xtask/src/main.rs:503-608 | so a tree with ordinary names passes |
| `AuditChecks.SelfCheckCanFail` | xtask/src/main.rs:503-608 | three crates, the last called "loc", fail their own report |
| `TokenStreams.TokenStream.Bootstrap` | crates/inference-py-bindings/src/cluster.rs:236-253 | a pending stream is started once or failed for good; any other is left alone |
| `TokenStreams.TokenStream.PullNext` | crates/inference-py-bindings/src/cluster.rs:254-269 | one poll: a chunk, or an error or end that makes the stream done; a done stream stops |
| `TokenStreams.StepKeepsInv` | crates/inference-py-bindings/src/cluster.rs:231-272 | each critical section of any call keeps: replies so far are the expected ones, and the runner was started at most once |
| `TokenStreams.Linear` | crates/inference-py-bindings/src/cluster.rs:231-272 | for every interleaving: one start, and the replies in lock order are the feed up to its first error or end, then stops |
| `TokenStreams.FailedStartIsRaisedOnce` | crates/inference-py-bindings/src/cluster.rs:236-253 | for every interleaving: a start that failed is raised once, first, and never tried again |
| `TokenStreams.OneReplyPerCall` | crates/inference-py-bindings/src/cluster.rs:231-272 | for every interleaving: as many replies as finished calls |
| `TokenStreams.LogYields` | crates/inference-py-bindings/src/cluster.rs:255-271 | the chunks handed out are the feed's, none lost or repeated |
| `TokenStreams.LogRaises` | crates/inference-py-bindings/src/cluster.rs:255-271 | the error is delivered once |
| `TokenStreams.LogStops` | crates/inference-py-bindings/src/cluster.rs:255-271 | after the end every call stops |
| `TokenStreams.Execute` | crates/inference-py-bindings/src/cluster.rs:163-176 | draining gives the folded tokens, or the stream's error |
| `TokenStreams.DrainedAddsUp` | crates/inference-core/src/tokens.rs:65-75 | draining gives concatenated text, usage summed modulo 2^32, the first non-empty request id and the last finish reason |
| `TokenStreams.StreamAndDrainAgree` | crates/inference-py-bindings/src/cluster.rs:163-272 | what the streaming calls were handed is what draining adds up |
| `Transcripts.SendAll` | crates/inference-runtime-deepgram/src/runner.rs:273-277 | sends the buffer in order until nobody listens |
| `Deepgram.Read` | crates/inference-runtime-deepgram/src/runner.rs:200-250 | buffers what passes the filter and reports what ended the reading |
| `Deepgram.Downlink` | crates/inference-runtime-deepgram/src/runner.rs:199-278 | for every event sequence and receiver: an abort sends its error alone, a decode error is followed by the flushed buffer, an ordinary end sends the flushed buffer |
| `Deepgram.OnlyFinishedSegments` | crates/inference-runtime-deepgram/src/runner.rs:206-211 | without interim results every chunk comes from a finished segment |
| `Deepgram.TwoFinals` | crates/inference-runtime-deepgram/src/runner.rs:252-257 | two segments that each end an utterance give two final chunks |
| `Deepgram.SecondsToMsIsMonotone` | crates/inference-runtime-deepgram/src/runner.rs:455-457 | times keep their order in the saturating conversion |
| `Deepgram.SecondsToMsIsExact` | crates/inference-runtime-deepgram/src/runner.rs:455-457 | a time is its whole milliseconds, from zero to the largest 32-bit number |
| `Deepgram.ChunkFollowsResults` | crates/inference-runtime-deepgram/src/runner.rs:408-452 | for every envelope: a chunk is final when its utterance is, has one timing per wanted word in order, a speaker exactly when wanted and known, and its spans keep the order of the provider's |
| `Deepgram.ChunkIsOfItsResults` | crates/inference-runtime-deepgram/src/runner.rs:408-452 | its times, text and words are those of the envelope's first alternative, in milliseconds |
| `Deepgram.ChunkNamesFirstSpeaker` | crates/inference-runtime-deepgram/src/runner.rs:424-428 | the speaker is that of the first word that has one |
| `Deepgram.KeepsExactly` | crates/inference-runtime-deepgram/src/runner.rs:205-215 | exactly the results are kept that are final or while interim ones are wanted |
| `Deepgram.EventsEndReading` | crates/inference-runtime-deepgram/src/runner.rs:216-250 | what each event does: close codes 1000, 1005 and 1006 end the reading, others abort it |
| `AssemblyAi.ChunkSpansItsWords` | crates/inference-runtime-assemblyai/src/runner.rs:394-420 | for every turn: a chunk is final when its turn is, starts and ends with words of it, and spans them all when they are in order |
| `AssemblyAi.Read` | crates/inference-runtime-assemblyai/src/runner.rs:199-253 | buffers what passes the filter and reports what ended the reading |
| `AssemblyAi.Downlink` | crates/inference-runtime-assemblyai/src/runner.rs:198-279 | for every event sequence and receiver: an abort sends its error alone, a decode error is followed by the flushed buffer, an ordinary end sends the flushed buffer |
| `AssemblyAi.OnlyEndedTurns` | crates/inference-runtime-assemblyai/src/runner.rs:206-214 | without interim results every chunk ends a turn, so the flush marks none of them |
| `AssemblyAi.KeepsExactly` | crates/inference-runtime-assemblyai/src/runner.rs:206-214 | exactly the turns are kept that have ended or while interim results are wanted |
| `AssemblyAi.EventsEndReading` | crates/inference-runtime-assemblyai/src/runner.rs:215-253 | what each event does: close codes 1000, 1005 and 1006 end the reading, others abort it |
| `AssemblyAi.TwoFinals` | crates/inference-runtime-assemblyai/src/runner.rs:255-279 | two turns that have ended give two final chunks |
| `Transcripts.TerminalChunk` | crates/inference-runtime-deepgram/src/runner.rs:252-277 | the flush keeps the buffered chunks in order; finals = max(1, provider finals), and an added one is last and alone |
| `Transcripts.OneFinalExactly` | crates/inference-runtime-deepgram/src/runner.rs:252-257 | exactly one final chunk if and only if the provider marked at most one |
| `Transcripts.KeptInPlace` | crates/inference-runtime-deepgram/src/runner.rs:205-215 | every kept chunk is made from an event that is kept |
| `Transcripts.KeptInOrder` | crates/inference-runtime-deepgram/src/runner.rs:205-215 | kept chunks keep the order of their events |
| `Transcripts.NoneMissed` | crates/inference-runtime-deepgram/src/runner.rs:205-215 | no kept event that was read is missed |
| `Transcripts.FirstToStop` | crates/inference-runtime-deepgram/src/runner.rs:200-250 | the reading ends at the first event that ends it |
| `Transcripts.ErrorsComeFirst` | crates/inference-runtime-deepgram/src/runner.rs:216-250 | at most one error, sent first; an abnormal close or receive error is all that is sent |
| `ElevenLabs.WsAlignmentToDelta` | crates/inference-runtime-elevenlabs/src/runner.rs:629-650 | pairs characters with their times, none ending before it starts |
| `ElevenLabs.TimingsPairUp` | crates/inference-runtime-elevenlabs/src/runner.rs:629-650 | each timing has its character, start and end, as many as all three lists hold |
| `ElevenLabs.Decide` | crates/inference-runtime-elevenlabs/src/runner.rs:374-454 | what one event calls for: a chunk, nothing, the end, or an error |
| `ElevenLabs.FrameMeans` | crates/inference-runtime-elevenlabs/src/runner.rs:374-427 | a frame without audio, wanted alignment or final mark is skipped; any other becomes a chunk with what it has |
| `ElevenLabs.OtherEventsMean` | crates/inference-runtime-elevenlabs/src/runner.rs:428-454 | only a close with code 1000 is no error |
| `ElevenLabs.Pump` | crates/inference-runtime-elevenlabs/src/runner.rs:409-454 | sends it, and tells whether to go on |
| `ElevenLabs.Downlink` | crates/inference-runtime-elevenlabs/src/runner.rs:370-470 | for every event sequence and receiver: each frame's chunk in turn, an error where one occurs, and the closing chunk unless a final one was sent |
| `ElevenLabs.TerminalChunk` | crates/inference-runtime-elevenlabs/src/runner.rs:370-470 | non-final chunks, at most one error, then exactly one final chunk, last |
| `ElevenLabs.OutputInOrder` | crates/inference-runtime-elevenlabs/src/runner.rs:370-470 | one chunk for each event that calls for one, in order, up to the event that ends the reading |
| `ElevenLabs.OutputAtTheEnd` | crates/inference-runtime-elevenlabs/src/runner.rs:370-470 | which sends its final chunk, or its error and the closing chunk, or the closing chunk |
| `ElevenLabs.ChunksAnswerTheRequest` | crates/inference-runtime-elevenlabs/src/runner.rs:403-470 | every chunk carries its request, and the last one is final |
| `ElevenLabs.AudioIsKept` | crates/inference-runtime-elevenlabs/src/runner.rs:374-427 | the audio sent is the decoded audio of the frames read, none lost, repeated or reordered |
| `Channels.Sender.Send` | crates/inference-remote-core/src/worker.rs:86-89 | a send succeeds while the receiver stays, and nothing arrives after it leaves |

## Left out

- Transport: HTTP, WebSocket, gRPC and SSE, URLs, headers and sessions; what arrives is a sequence of events.
- The ONNX session, the tokenizer and the weighted choice are parameters. The session is assumed to make its cache transparent: run on the cache of p with new tokens x it answers as for p + x.
- Floating point: rounding, overflow and NaN in backoff, in sampling and in Deepgram's conversion of seconds to milliseconds; all are over the reals, with the exponential an abstract positive increasing function, so weights that underflow to zero do not occur.
- Real entropy and weak memory: random state is an abstract value, atomics are sequentially consistent.
- The binary heap and the select, sort and channel libraries: specified by what they promise. A bounded channel's back-pressure only delays, so it shows only as a receiver that leaves after some number of messages.
- Engine: worker panic and restart, a failed spawn, and the `on_capacity_exhausted` setting, which `enqueue` ignores.
- Counters: `next_seq`, the metrics, the limiter's counts and the printed totals are unbounded; only the breaker's failure counter and the drained usage wrap as the code's `u32` does.
- Worker: the permit it acquires is always granted, so the rate limiter does not gate it; outcomes are not reported to the breaker by the worker, and are not here. A sleep is a recorded duration.
- Retry: the attempt counter is unbounded; the code's `u32` cannot wrap before the retry limit, itself a `u32`, stops it.
- Breaker: `half_open_max_probes` is never read by the code; the state read and the retry hint of one call use one clock reading, where the code takes several. A race with `record_success` or `force_open` is not modelled; `BreakerRaces` covers concurrent failures only.
- Rate limiter: the actor's mailbox and the snapshot handle, and the shared counter's merge beyond a per-node maximum.
- Generation: the prompt's rendering and tokenisation, tensor shapes, errors for missing outputs (they are session errors here), and cancellation of the blocking task.
- Sampling: the cast of a token id to `u32`, and seeding.
- Audit: reading the source tree, the printed table, the text of a regression line, and the macro counting.
- AuditLaws.ParsedExactly: crate names that hold a double quote, which the printer does not escape; nor does `AuditChecks.SelfCheck` or any other lemma on reading a report back cover them.
- TokenStream: cancelled calls, and the lookup and deployment registry. `TokenStreams.Execute` needs the stream to end.
- Downlinks: the uplink tasks and their errors, `params` and `usage` of the chunks, message texts of errors, and JSON and base64 decoding (their results are inputs).
- Transcripts.ErrorsComeFirst: the uplink shares the output channel, and an error it sends may come in between; only the downlink's own messages are covered.
- Backoff.DelayGrowsExactly: multipliers below one, for which delays are meant to shrink, are not covered by it.
- Everything else in the workspace: pricing tables, configuration, serialisation, error mapping, Python wrappers, re-chunkers, manifest editing.
