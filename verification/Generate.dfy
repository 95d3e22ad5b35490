// The autoregressive generation loop of the ONNX runtime
// (crates/inference-runtime-ort/src/generate.rs).
//
// The session, the tokenizer and the sampler are parameters.  What is assumed
// of a session is that its cache is transparent: run on the cache of a prefix p
// and new tokens x, with an all-ones mask for p + x and the positions of x, it
// answers what a run on all of p + x would.
module Generate {
  import opened Wrappers
  import opened Channels
  import opened Text

  type Token = nat

  datatype Failure = SessionError | DecodeError | BadRequest

  datatype Inputs<C> = Inputs(ids: seq<Token>, mask: Option<seq<nat>>, positions: Option<seq<nat>>, cache: C)

  datatype Topology = Topology(hasMask: bool, hasPositions: bool, logitsAreF32: bool)

  datatype FinishReason = Stop | Length

  datatype Usage = Usage(inputTokens: nat, outputTokens: nat)

  datatype Chunk = Chunk(textDelta: string, usage: Option<Usage>, finish: Option<FinishReason>)

  datatype Task<!L, !G> = Task(
    prompt: seq<Token>,
    sample: (L, G) -> (Token, G),
    decode: seq<Token> -> Result<string, Failure>,
    eos: Option<Token>,
    stops: seq<string>,
    maxNew: nat)

  // ---- The session and its assumed behaviour -------------------------------

  class Session<C, L> {
    const topo: Topology
    const run: Inputs<C> -> Result<(L, C), Failure>
    const emptyCache: C
    var calls: seq<Inputs<C>>

    constructor (topo: Topology, run: Inputs<C> -> Result<(L, C), Failure>, emptyCache: C)
      ensures this.topo == topo && this.run == run && this.emptyCache == emptyCache && calls == []
    {
      this.topo := topo;
      this.run := run;
      this.emptyCache := emptyCache;
      calls := [];
    }

    method Run(inputs: Inputs<C>) returns (r: Result<(L, C), Failure>)
      modifies this
      ensures r == run(inputs) && calls == old(calls) + [inputs]
    {
      r := run(inputs);
      calls := calls + [inputs];
    }
  }

  function Iota(from: nat, n: nat): seq<nat> {
    seq(n, i => from + i)
  }

  function Ones(n: nat): seq<nat> {
    seq(n, i => 1)
  }

  // Stateless answers for whole sequences, and the cache each leaves behind.
  datatype Oracle<!C, !L> = Oracle(full: seq<Token> -> Result<L, Failure>, cacheOf: seq<Token> -> C)

  function InputsFor<C, L>(topo: Topology, o: Oracle<C, L>, p: seq<Token>, x: seq<Token>): Inputs<C> {
    Inputs(x,
           if topo.hasMask then Some(Ones(|p| + |x|)) else None,
           if topo.hasPositions then Some(Iota(|p|, |x|)) else None,
           o.cacheOf(p))
  }

  function Answer<C, L>(o: Oracle<C, L>, ids: seq<Token>): Result<(L, C), Failure> {
    match o.full(ids)
    case Err(e) => Err(e)
    case Ok(l) => Ok((l, o.cacheOf(ids)))
  }

  ghost predicate Transparent<C, L>(topo: Topology, run: Inputs<C> -> Result<(L, C), Failure>, o: Oracle<C, L>) {
    forall p, x :: x != [] ==> run(InputsFor(topo, o, p, x)) == Answer(o, p + x)
  }

  // ---- The stateless reference ---------------------------------------------

  // One generated token and the decode of everything generated so far.
  datatype Round = Round(token: Token, text: string)

  datatype End = Finished(reason: FinishReason) | Failed(err: Failure)

  datatype Transcript = Transcript(rounds: seq<Round>, end: End)

  datatype Next<G> = Next(round: Round, rng: G)

  function Recompute<C, L, G>(t: Task<L, G>, o: Oracle<C, L>, generated: seq<Token>, rng: G): Result<Next<G>, Failure> {
    match o.full(t.prompt + generated)
    case Err(e) => Err(e)
    case Ok(logits) =>
      var (id, rng') := t.sample(logits, rng);
      match t.decode(generated + [id])
      case Err(e) => Err(e)
      case Ok(text) => Ok(Next(Round(id, text), rng'))
  }

  predicate HitsStop(stops: seq<string>, text: string) {
    exists i :: 0 <= i < |stops| && Contains(text, stops[i])
  }

  // Whether the loop ends after the n-th token.
  function Verdict<L, G>(t: Task<L, G>, r: Round, n: nat): Option<FinishReason> {
    if Some(r.token) == t.eos then Some(Stop)
    else if n >= t.maxNew then Some(Length)
    else if HitsStop(t.stops, r.text) then Some(Stop)
    else None
  }

  // Recomputing the logits of the whole sequence for every token.
  function Reference<C, L, G>(t: Task<L, G>, o: Oracle<C, L>, generated: seq<Token>, rng: G): Transcript
    decreases t.maxNew - |generated|
  {
    match Recompute(t, o, generated, rng)
    case Err(e) => Transcript([], Failed(e))
    case Ok(next) =>
      match Verdict(t, next.round, |generated| + 1)
      case Some(reason) => Transcript([next.round], Finished(reason))
      case None =>
        var rest := Reference(t, o, generated + [next.round.token], next.rng);
        Transcript([next.round] + rest.rounds, rest.end)
  }

  function Tokens(rounds: seq<Round>): seq<Token> {
    seq(|rounds|, i requires 0 <= i < |rounds| => rounds[i].token)
  }

  // ---- Streaming -----------------------------------------------------------

  const REPLACEMENT: char := '\U{FFFD}'

  predicate EndsWithReplacement(s: string) {
    s != [] && s[|s| - 1] == REPLACEMENT
  }

  // The text to emit, and whether it counts as emitted.
  function DecodeDelta(prev: string, full: string): (string, bool) {
    if prev <= full then
      var suffix := full[|prev|..];
      if EndsWithReplacement(suffix) then ("", false) else (suffix, true)
    else (full, true)
  }

  // What is streamed for some rounds, and the text accounted for by then.
  datatype Stream = Stream(deltas: seq<string>, prev: string)

  function Streamed(rounds: seq<Round>): Stream {
    if rounds == [] then Stream([], "")
    else
      var before := Streamed(rounds[..|rounds| - 1]);
      var text := rounds[|rounds| - 1].text;
      var (delta, advance) := DecodeDelta(before.prev, text);
      Stream(before.deltas + (if delta == "" then [] else [delta]), if advance then text else before.prev)
  }

  function Tail(prev: string, full: string): string {
    if |full| > |prev| && prev <= full then full[|prev|..] else ""
  }

  type Item = Result<Chunk, Failure>

  function Chunks(deltas: seq<string>): seq<Item> {
    seq(|deltas|, i requires 0 <= i < |deltas| => Ok(Chunk(deltas[i], None, None)))
  }

  function LastText(rounds: seq<Round>): string {
    if rounds == [] then "" else rounds[|rounds| - 1].text
  }

  function Closing(promptLen: nat, t: Transcript): Item {
    match t.end
    case Failed(e) => Err(e)
    case Finished(reason) =>
      Ok(Chunk(Tail(Streamed(t.rounds).prev, LastText(t.rounds)),
               Some(Usage(promptLen % U32_SPAN, |t.rounds|)), Some(reason)))
  }

  // Everything a receiver that stays gets to see.
  function FullLog(promptLen: nat, t: Transcript): seq<Item> {
    Chunks(Streamed(t.rounds).deltas) + [Closing(promptLen, t)]
  }

  // ---- The loop with its cache ---------------------------------------------

  // The mutable variables of the loop.
  datatype LoopState<C, G> = LoopState(allIds: seq<Token>, prev: string, past: C, pastLen: nat, step: nat, rng: G)

  datatype TurnEnd<C, G> = Continue(next: LoopState<C, G>) | Return(result: Result<(), Failure>)

  class Generator<C, L, G> {
    const task: Task<L, G>
    const session: Session<C, L>
    ghost const oracle: Oracle<C, L>

    ghost predicate Valid() {
      && task.prompt != []
      && session.emptyCache == oracle.cacheOf([])
      && Transparent(session.topo, session.run, oracle)
    }

    constructor (task: Task<L, G>, session: Session<C, L>, ghost oracle: Oracle<C, L>)
      ensures this.task == task && this.session == session && this.oracle == oracle
    {
      this.task := task;
      this.session := session;
      this.oracle := oracle;
    }

    // The inputs of the i-th session call of a run that generates these tokens.
    ghost function ExpectedInputs(tokens: seq<Token>, i: nat): Inputs<C>
      requires i <= |tokens|
    {
      if i == 0 then InputsFor(session.topo, oracle, [], task.prompt)
      else InputsFor(session.topo, oracle, task.prompt + tokens[..i - 1], [tokens[i - 1]])
    }

    // The last token, or the whole prompt, after the ids already in the cache.
    lemma TensorsAreExpected(allIds: seq<Token>, pastLen: nat, curInput: seq<Token>)
      requires task.prompt <= allIds && pastLen + |curInput| == |allIds| && curInput == allIds[pastLen..] && curInput != []
      requires pastLen == (if |allIds| == |task.prompt| then 0 else |allIds| - 1)
      ensures allIds[..pastLen] + curInput == allIds
      ensures ExpectedInputs(allIds[|task.prompt|..], |allIds| - |task.prompt|)
           == InputsFor(session.topo, oracle, allIds[..pastLen], curInput)
    {
      var tokens := allIds[|task.prompt|..];
      if |allIds| == |task.prompt| {
        assert allIds[..0] == [] && curInput == task.prompt;
      } else {
        assert task.prompt + tokens[..|tokens| - 1] == allIds[..pastLen];
        assert [tokens[|tokens| - 1]] == curInput;
      }
    }

    lemma SessionAnswers(allIds: seq<Token>, pastLen: nat, curInput: seq<Token>)
      requires Valid() && curInput != [] && pastLen <= |allIds| && allIds[..pastLen] + curInput == allIds
      ensures session.run(InputsFor(session.topo, oracle, allIds[..pastLen], curInput)) == Answer(oracle, allIds)
    {
    }

    // Build the tensors for the current step and run the session on them.
    method RunSession(allIds: seq<Token>, past: C, pastLen: nat, isPrefill: bool) returns (r: Result<(L, C), Failure>)
      requires Valid() && task.prompt <= allIds
      requires isPrefill ==> allIds == task.prompt && pastLen == 0
      requires !isPrefill ==> pastLen == |allIds| - 1 && |allIds| > |task.prompt|
      requires past == oracle.cacheOf(allIds[..pastLen])
      modifies session
      ensures r == Answer(oracle, allIds)
      ensures session.calls == old(session.calls) + [ExpectedInputs(allIds[|task.prompt|..], |allIds| - |task.prompt|)]
    {
      var curInput := if isPrefill then task.prompt else [allIds[|allIds| - 1]];
      var curLen := |curInput|;
      var totalAttnLen := pastLen + curLen;
      var mask := if session.topo.hasMask then Some(Ones(totalAttnLen)) else None;
      var positions := if session.topo.hasPositions then Some(Iota(pastLen, curLen)) else None;
      TensorsAreExpected(allIds, pastLen, curInput);
      SessionAnswers(allIds, pastLen, curInput);
      var inputs := Inputs(curInput, mask, positions, past);
      assert inputs == InputsFor(session.topo, oracle, allIds[..pastLen], curInput);
      r := session.Run(inputs);
    }

    method ContainsAnyStop(text: string) returns (hit: bool)
      ensures hit == HitsStop(task.stops, text)
    {
      for i := 0 to |task.stops|
        invariant forall j :: 0 <= j < i ==> !Contains(text, task.stops[j])
      {
        if Contains(text, task.stops[i]) {
          return true;
        }
      }
      hit := false;
    }

    method Judge(r: Round, outputTokens: nat) returns (finish: Option<FinishReason>)
      ensures finish == Verdict(task, r, outputTokens)
    {
      if Some(r.token) == task.eos {
        return Some(Stop);
      }
      if outputTokens >= task.maxNew {
        return Some(Length);
      }
      var hit := ContainsAnyStop(r.text);
      finish := if hit then Some(Stop) else None;
    }

    // Emit what is new, unless nothing is; report whether anybody listens.
    method EmitDelta(prev: string, text: string, out: Sender<Item>) returns (prev': string, listening: bool)
      requires out.Valid()
      modifies out
      ensures out.Valid()
      ensures var (delta, advance) := DecodeDelta(prev, text);
              var sent := if delta == "" then [] else [Ok(Chunk(delta, None, None))];
              && prev' == (if advance then text else prev)
              && out.delivered == Deliver(out.limit, old(out.delivered) + sent)
              && listening == Fits(out.limit, |old(out.delivered) + sent|)
    {
      var (delta, advance) := DecodeDelta(prev, text);
      prev' := if advance then text else prev;
      listening := true;
      if delta != "" {
        listening := out.Send(Ok(Chunk(delta, None, None)));
      } else {
        assert old(out.delivered) + [] == old(out.delivered);
      }
    }

    // One pass: session, sampler, decoder.
    method Produce(allIds: seq<Token>, past: C, pastLen: nat, isPrefill: bool, rng: G) returns (r: Result<(Next<G>, C), Failure>)
      requires Valid() && task.prompt <= allIds
      requires isPrefill ==> allIds == task.prompt && pastLen == 0
      requires !isPrefill ==> pastLen == |allIds| - 1 && |allIds| > |task.prompt|
      requires past == oracle.cacheOf(allIds[..pastLen])
      modifies session
      ensures session.calls == old(session.calls) + [ExpectedInputs(allIds[|task.prompt|..], |allIds| - |task.prompt|)]
      ensures match Recompute(task, oracle, allIds[|task.prompt|..], rng)
              case Err(e) => r == Err(e)
              case Ok(next) => r == Ok((next, oracle.cacheOf(allIds)))
    {
      assert task.prompt + allIds[|task.prompt|..] == allIds;
      var answer := RunSession(allIds, past, pastLen, isPrefill);
      match answer {
        case Err(e) => return Err(e);
        case Ok((logits, present)) =>
          var (id, rng') := task.sample(logits, rng);
          var generated := allIds[|task.prompt|..] + [id];
          match task.decode(generated) {
            case Err(e) => return Err(e);
            case Ok(text) => return Ok((Next(Round(id, text), rng'), present));
          }
      }
    }

    ghost function Outcome(rng: G): Transcript {
      if session.topo.logitsAreF32 then Reference(task, oracle, [], rng) else Transcript([], Failed(BadRequest))
    }

    // How often a run calls the session: once a round for as long as its
    // receiver listens, and not at all without usable logits.
    ghost predicate CallsMade(limit: Option<nat>, pre: seq<Item>, rng: G, n: int) {
      if session.topo.logitsAreF32 then StopsAfter(limit, pre, Outcome(rng), n) else n == 0
    }

    // Calls from number `from` on are what a run generating these tokens makes.
    ghost predicate CallsAre(calls: seq<Inputs<C>>, from: nat, tokens: seq<Token>) {
      && from <= |calls| <= from + |tokens| + 1
      && forall i :: 0 <= i < |calls| - from ==> calls[from + i] == ExpectedInputs(tokens, i)
    }

    lemma CallsExtend(calls: seq<Inputs<C>>, from: nat, now: seq<Token>, tokens: seq<Token>)
      requires CallsAre(calls, from, tokens) && |calls| == from + |now| && now <= tokens
      ensures CallsAre(calls + [ExpectedInputs(now, |now|)], from, tokens)
    {
      if |now| > 0 {
        assert now[..|now| - 1] == tokens[..|now| - 1];
      }
    }

    // The last message of a loop that ran to its end.
    method Flush(prev: string, generated: seq<Token>, finish: FinishReason, ghost rounds: seq<Round>, ghost pre: seq<Item>, out: Sender<Item>)
      requires out.Valid() && generated == Tokens(rounds)
      requires task.decode(generated) == Ok(LastText(rounds))
      requires prev == Streamed(rounds).prev && out.delivered == pre + Chunks(Streamed(rounds).deltas)
      modifies out
      ensures out.Valid()
      ensures out.delivered == Deliver(out.limit, pre + FullLog(|task.prompt|, Transcript(rounds, Finished(finish))))
    {
      var full := task.decode(generated).value;
      var tail := Tail(prev, full);
      var _ := out.Send(Ok(Chunk(tail, Some(Usage(|task.prompt| % U32_SPAN, |generated|)), Some(finish))));
      Regroup(pre, Chunks(Streamed(rounds).deltas), [Closing(|task.prompt|, Transcript(rounds, Finished(finish)))]);
    }

    // The ids, the cache and the counters after these tokens.
    ghost predicate Holds(st: LoopState<C, G>, tokens: seq<Token>) {
      && st.allIds == task.prompt + tokens && st.step == |tokens|
      && st.pastLen == (if st.step == 0 then 0 else |st.allIds| - 1)
      && st.past == oracle.cacheOf(st.allIds[..st.pastLen])
    }

    // The loop variables at the head of the loop, after the rounds in `done`.
    ghost predicate AtHead(st: LoopState<C, G>, done: seq<Round>, t: Transcript, pre: seq<Item>, delivered: seq<Item>) {
      && t == Prepend(done, Reference(task, oracle, Tokens(done), st.rng))
      && Holds(st, Tokens(done))
      && st.prev == Streamed(done).prev && delivered == pre + Chunks(Streamed(done).deltas)
    }

    // The loop head moves on by one round that does not end the loop.
    lemma HeadMoves(st: LoopState<C, G>, done: seq<Round>, t: Transcript, pre: seq<Item>, delivered: seq<Item>,
                    next: Next<G>, prev: string, delivered': seq<Item>)
      requires AtHead(st, done, t, pre, delivered)
      requires Recompute(task, oracle, Tokens(done), st.rng) == Ok(next)
      requires Verdict(task, next.round, |done| + 1).None?
      requires prev == Streamed(done + [next.round]).prev
      requires delivered' == pre + Chunks(Streamed(done + [next.round]).deltas)
      ensures |done| + 1 < task.maxNew
      ensures AtHead(LoopState(st.allIds + [next.round.token], prev, oracle.cacheOf(st.allIds), |st.allIds|, st.step + 1, next.rng),
                     done + [next.round], t, pre, delivered')
    {
      ReferenceGoesOn(task, oracle, done, st.rng, next);
      AppendToken(task.prompt, done, next.round);
    }

    // A receiver that misses a part of the round just emitted ends the run.
    lemma DroppedHere(st: LoopState<C, G>, done: seq<Round>, t: Transcript, pre: seq<Item>, delivered: seq<Item>,
                      next: Next<G>, limit: Option<nat>)
      requires AtHead(st, done, t, pre, delivered) && Fits(limit, |delivered|)
      requires Recompute(task, oracle, Tokens(done), st.rng) == Ok(next)
      requires !Heard(limit, pre, done + [next.round])
      ensures Deliver(limit, pre + FullLog(|task.prompt|, t)) == Deliver(limit, pre + Chunks(Streamed(done + [next.round]).deltas))
      ensures StopsAfter(limit, pre, t, |done| + 1)
    {
      DroppedReceiver(task, oracle, done, st.rng, next, pre, limit);
      StopsHere(limit, pre, t, done, next.round);
    }

    // So does a verdict.
    lemma EndsHere(st: LoopState<C, G>, done: seq<Round>, t: Transcript, pre: seq<Item>, delivered: seq<Item>,
                   next: Next<G>, limit: Option<nat>, finish: FinishReason)
      requires AtHead(st, done, t, pre, delivered) && Fits(limit, |delivered|)
      requires Recompute(task, oracle, Tokens(done), st.rng) == Ok(next)
      requires Verdict(task, next.round, |done| + 1) == Some(finish)
      ensures t == Transcript(done + [next.round], Finished(finish)) && StopsAfter(limit, pre, t, |done| + 1)
      ensures task.decode(Tokens(done + [next.round])) == Ok(next.round.text)
      ensures (st.allIds + [next.round.token])[|task.prompt|..] == Tokens(done + [next.round])
    {
      ReferenceEnds(task, oracle, done, st.rng, next);
      AppendToken(task.prompt, done, next.round);
      StopsHere(limit, pre, t, done, next.round);
    }

    // Emit what a round adds to the stream.
    method EmitRound(prev: string, r: Round, ghost done: seq<Round>, ghost pre: seq<Item>, out: Sender<Item>)
      returns (prev': string, listening: bool)
      requires out.Valid() && prev == Streamed(done).prev && out.delivered == pre + Chunks(Streamed(done).deltas)
      modifies out
      ensures out.Valid() && prev' == Streamed(done + [r]).prev && listening == Heard(out.limit, pre, done + [r])
      ensures out.delivered == Deliver(out.limit, pre + Chunks(Streamed(done + [r]).deltas))
    {
      StreamStep(done, r, pre);
      prev', listening := EmitDelta(prev, r.text, out);
    }

    // The second half of one pass: emit, judge, flush.
    method Advance(st: LoopState<C, G>, next: Next<G>, present: C, ghost done: seq<Round>, ghost t: Transcript,
                   ghost pre: seq<Item>, out: Sender<Item>) returns (end: TurnEnd<C, G>)
      requires out.Valid() && AtHead(st, done, t, pre, out.delivered)
      requires Recompute(task, oracle, Tokens(done), st.rng) == Ok(next) && present == oracle.cacheOf(st.allIds)
      modifies out
      ensures out.Valid()
      ensures match end
              case Continue(st') => |done| + 1 < task.maxNew && AtHead(st', done + [next.round], t, pre, out.delivered)
              case Return(Ok(_)) =>
                && out.delivered == Deliver(out.limit, pre + FullLog(|task.prompt|, t))
                && StopsAfter(out.limit, pre, t, |done| + 1)
              case Return(Err(e)) => false
    {
      ghost var delivered := out.delivered;
      var allIds := st.allIds + [next.round.token];
      var prev, listening := EmitRound(st.prev, next.round, done, pre, out);
      if !listening {
        DroppedHere(st, done, t, pre, delivered, next, out.limit);
        return Return(Ok(()));
      }
      var finish := Judge(next.round, st.step + 1);
      if finish.Some? {
        EndsHere(st, done, t, pre, delivered, next, out.limit, finish.value);
        Flush(prev, allIds[|task.prompt|..], finish.value, done + [next.round], pre, out);
        return Return(Ok(()));
      }
      HeadMoves(st, done, t, pre, delivered, next, prev, out.delivered);
      end := Continue(LoopState(allIds, prev, present, |st.allIds|, st.step + 1, next.rng));
    }

    // The calls so far, and the round about to be begun.
    lemma NextCall(st: LoopState<C, G>, done: seq<Round>, t: Transcript, pre: seq<Item>, delivered: seq<Item>,
                   calls: seq<Inputs<C>>, from: nat)
      requires AtHead(st, done, t, pre, delivered)
      requires CallsAre(calls, from, Tokens(t.rounds)) && |calls| == from + |done|
      ensures CallsAre(calls + [ExpectedInputs(Tokens(done), |Tokens(done)|)], from, Tokens(t.rounds))
    {
      DoneIsPrefix(done, Reference(task, oracle, Tokens(done), st.rng));
      CallsExtend(calls, from, Tokens(done), Tokens(t.rounds));
    }

    lemma HeadFails(st: LoopState<C, G>, done: seq<Round>, t: Transcript, pre: seq<Item>, delivered: seq<Item>, e: Failure)
      requires AtHead(st, done, t, pre, delivered) && Recompute(task, oracle, Tokens(done), st.rng) == Err(e)
      ensures t == Transcript(done, Failed(e)) && delivered == pre + Chunks(Streamed(t.rounds).deltas)
    {
      ReferenceFails(task, oracle, done, st.rng);
    }

    // How one pass ends, against the transcript of the reference.
    ghost predicate TurnOk(end: TurnEnd<C, G>, done: seq<Round>, done': seq<Round>, t: Transcript, pre: seq<Item>,
                           limit: Option<nat>, delivered: seq<Item>) {
      match end
      case Continue(st) => |done'| == |done| + 1 < task.maxNew && AtHead(st, done', t, pre, delivered)
      case Return(Ok(_)) =>
        && delivered == Deliver(limit, pre + FullLog(|task.prompt|, t))
        && StopsAfter(limit, pre, t, |done| + 1)
      case Return(Err(e)) =>
        && t.end == Failed(e) && delivered == pre + Chunks(Streamed(t.rounds).deltas)
        && StopsAfter(limit, pre, t, |done| + 1)
    }

    // The first half of one pass.
    method Compute(st: LoopState<C, G>, ghost tokens: seq<Token>) returns (r: Result<(Next<G>, C), Failure>)
      requires Valid() && Holds(st, tokens)
      modifies session
      ensures session.calls == old(session.calls) + [ExpectedInputs(tokens, |tokens|)]
      ensures match Recompute(task, oracle, tokens, st.rng)
              case Err(e) => r == Err(e)
              case Ok(next) => r == Ok((next, oracle.cacheOf(st.allIds)))
    {
      GeneratedPart(task.prompt, tokens);
      r := Produce(st.allIds, st.past, st.pastLen, st.step == 0, st.rng);
    }

    // One pass of the loop.
    method Turn(st: LoopState<C, G>, ghost done: seq<Round>, ghost t: Transcript, ghost pre: seq<Item>, ghost from: nat, out: Sender<Item>)
      returns (end: TurnEnd<C, G>, ghost done': seq<Round>)
      requires Valid() && out.Valid() && AtHead(st, done, t, pre, out.delivered)
      requires CallsAre(session.calls, from, Tokens(t.rounds)) && |session.calls| == from + |done|
      modifies session, out
      ensures out.Valid()
      ensures CallsAre(session.calls, from, Tokens(t.rounds)) && |session.calls| == from + |done| + 1
      ensures TurnOk(end, done, done', t, pre, out.limit, out.delivered)
    {
      NextCall(st, done, t, pre, out.delivered, session.calls, from);
      var produced := Compute(st, Tokens(done));
      if produced.Err? {
        HeadFails(st, done, t, pre, out.delivered, produced.error);
        StopsAtFailure(out.limit, pre, t);
        return Return(Err(produced.error)), done;
      }
      var (next, present) := produced.value;
      done' := done + [next.round];
      end := Advance(st, next, present, done, t, pre, out);
    }

    // The loop from its head on.
    method Loop(st0: LoopState<C, G>, ghost t: Transcript, ghost pre: seq<Item>, out: Sender<Item>) returns (r: Result<(), Failure>)
      requires Valid() && out.Valid() && AtHead(st0, [], t, pre, out.delivered)
      modifies session, out
      ensures out.Valid()
      ensures r.Ok? ==> out.delivered == Deliver(out.limit, pre + FullLog(|task.prompt|, t))
      ensures r.Err? ==> t.end == Failed(r.error) && out.delivered == pre + Chunks(Streamed(t.rounds).deltas)
      ensures CallsAre(session.calls, |old(session.calls)|, Tokens(t.rounds))
      ensures StopsAfter(out.limit, pre, t, |session.calls| - |old(session.calls)|)
    {
      var st := st0;
      ghost var done: seq<Round> := [];
      ghost var from := |session.calls|;
      while true
        invariant out.Valid() && AtHead(st, done, t, pre, out.delivered)
        invariant |session.calls| == from + |done| && CallsAre(session.calls, from, Tokens(t.rounds))
        decreases if |done| == 0 then 1 else 0, task.maxNew - |done|
      {
        var end;
        end, done := Turn(st, done, t, pre, from, out);
        match end {
          case Return(result) => return result;
          case Continue(st') => st := st';
        }
      }
    }

    method RunLoop(rng0: G, out: Sender<Item>) returns (r: Result<(), Failure>)
      requires Valid() && out.Valid()
      modifies session, out
      ensures out.Valid()
      ensures r.Ok? ==> out.delivered == Deliver(out.limit, old(out.delivered) + FullLog(|task.prompt|, Outcome(rng0)))
      ensures r.Err? ==> Outcome(rng0).end == Failed(r.error)
                         && out.delivered == old(out.delivered) + Chunks(Streamed(Outcome(rng0).rounds).deltas)
      ensures CallsAre(session.calls, |old(session.calls)|, Tokens(Outcome(rng0).rounds))
      ensures CallsMade(out.limit, old(out.delivered), rng0, |session.calls| - |old(session.calls)|)
    {
      StartOfRun(Outcome(rng0), out.delivered, task.prompt);
      if !session.topo.logitsAreF32 {
        return Err(BadRequest);
      }
      r := Loop(LoopState(task.prompt, "", session.emptyCache, 0, 0, rng0), Outcome(rng0), out.delivered, out);
    }

    // The blocking task: a failed loop reports its error as the last message.
    method RunGeneration(rng0: G, out: Sender<Item>)
      requires Valid() && out.Valid()
      modifies session, out
      ensures out.delivered == Deliver(out.limit, old(out.delivered) + FullLog(|task.prompt|, Outcome(rng0)))
      ensures CallsAre(session.calls, |old(session.calls)|, Tokens(Outcome(rng0).rounds))
      ensures CallsMade(out.limit, old(out.delivered), rng0, |session.calls| - |old(session.calls)|)
    {
      ghost var pre := out.delivered;
      var r := RunLoop(rng0, out);
      if r.Err? {
        ghost var t := Outcome(rng0);
        Regroup(pre, Chunks(Streamed(t.rounds).deltas), [Closing(|task.prompt|, t)]);
        var _ := out.Send(Err(r.error));
      }
    }
  }

  // Rounds that were begun: those that came to a token, and one that failed.
  function Rounds(t: Transcript): nat {
    |t.rounds| + (if t.end.Failed? then 1 else 0)
  }

  // The receiver stays for all the deltas of these rounds.
  predicate Heard(limit: Option<nat>, pre: seq<Item>, rounds: seq<Round>) {
    Fits(limit, |pre + Chunks(Streamed(rounds).deltas)|)
  }

  // Round n is the last to be begun: it ends the run, or the first of which the
  // receiver misses a part.
  predicate StopsAfter(limit: Option<nat>, pre: seq<Item>, t: Transcript, n: int) {
    && 0 < n <= Rounds(t) && Heard(limit, pre, t.rounds[..n - 1])
    && (n < Rounds(t) ==> !Heard(limit, pre, t.rounds[..n]))
  }

  lemma StopsHere(limit: Option<nat>, pre: seq<Item>, t: Transcript, done: seq<Round>, r: Round)
    requires done + [r] <= t.rounds && Heard(limit, pre, done)
    requires !Heard(limit, pre, done + [r]) || (done + [r] == t.rounds && t.end.Finished?)
    ensures StopsAfter(limit, pre, t, |done| + 1)
  {
    assert t.rounds[..|done|] == done && t.rounds[..|done| + 1] == done + [r];
  }

  lemma StopsAtFailure(limit: Option<nat>, pre: seq<Item>, t: Transcript)
    requires t.end.Failed? && Heard(limit, pre, t.rounds)
    ensures StopsAfter(limit, pre, t, |t.rounds| + 1)
  {
    assert t.rounds[..|t.rounds|] == t.rounds;
  }

  function Prepend(done: seq<Round>, rest: Transcript): Transcript {
    Transcript(done + rest.rounds, rest.end)
  }

  // ---- Steps of the loop against the reference -----------------------------

  lemma StartOfRun(t: Transcript, pre: seq<Item>, prompt: seq<Token>)
    ensures t == Prepend([], t)
    ensures Tokens([]) == [] && prompt + Tokens([]) == prompt && prompt[..0] == []
    ensures Streamed([]) == Stream([], "") && pre + Chunks([]) == pre
  {
    assert [] + t.rounds == t.rounds;
    assert Chunks([]) == [];
  }

  lemma DoneIsPrefix(done: seq<Round>, rest: Transcript)
    ensures Tokens(done) <= Tokens(Prepend(done, rest).rounds)
  {
  }

  lemma GeneratedPart(prompt: seq<Token>, tokens: seq<Token>)
    ensures (prompt + tokens)[|prompt|..] == tokens && prompt <= prompt + tokens
  {
  }

  // Pushing the new id keeps the bookkeeping: the ids before it are the prefix
  // whose cache the session has just handed back.
  lemma AppendToken(prompt: seq<Token>, done: seq<Round>, r: Round)
    ensures (prompt + Tokens(done)) + [r.token] == prompt + Tokens(done + [r])
    ensures (prompt + Tokens(done + [r]))[..|prompt + Tokens(done)|] == prompt + Tokens(done)
    ensures (prompt + Tokens(done + [r]))[|prompt|..] == Tokens(done + [r])
    ensures |prompt + Tokens(done + [r])| == |prompt| + |done| + 1
  {
    TokensSnoc(done, r);
  }

  lemma TokensSnoc(done: seq<Round>, r: Round)
    ensures Tokens(done + [r]) == Tokens(done) + [r.token]
  {
  }

  lemma ReferenceFails<C, L, G>(t: Task<L, G>, o: Oracle<C, L>, done: seq<Round>, rng: G)
    requires Recompute(t, o, Tokens(done), rng).Err?
    ensures Prepend(done, Reference(t, o, Tokens(done), rng))
            == Transcript(done, Failed(Recompute(t, o, Tokens(done), rng).error))
  {
    assert done + [] == done;
  }

  lemma ReferenceEnds<C, L, G>(t: Task<L, G>, o: Oracle<C, L>, done: seq<Round>, rng: G, next: Next<G>)
    requires Recompute(t, o, Tokens(done), rng) == Ok(next)
    requires Verdict(t, next.round, |done| + 1).Some?
    ensures Prepend(done, Reference(t, o, Tokens(done), rng))
            == Transcript(done + [next.round], Finished(Verdict(t, next.round, |done| + 1).value))
    ensures t.decode(Tokens(done + [next.round])) == Ok(next.round.text)
  {
    TokensSnoc(done, next.round);
  }

  lemma ReferenceGoesOn<C, L, G>(t: Task<L, G>, o: Oracle<C, L>, done: seq<Round>, rng: G, next: Next<G>)
    requires Recompute(t, o, Tokens(done), rng) == Ok(next)
    requires Verdict(t, next.round, |done| + 1).None?
    ensures |done| + 1 < t.maxNew
    ensures Prepend(done, Reference(t, o, Tokens(done), rng))
            == Prepend(done + [next.round], Reference(t, o, Tokens(done + [next.round]), next.rng))
  {
    TokensSnoc(done, next.round);
    var rest := Reference(t, o, Tokens(done + [next.round]), next.rng);
    assert done + ([next.round] + rest.rounds) == (done + [next.round]) + rest.rounds;
  }

  lemma ChunksAppend(a: seq<string>, b: seq<string>)
    ensures Chunks(a + b) == Chunks(a) + Chunks(b)
  {
  }

  // Emitting one round's delta extends the stream by that round.
  lemma StreamStep(done: seq<Round>, r: Round, pre: seq<Item>)
    ensures var (delta, advance) := DecodeDelta(Streamed(done).prev, r.text);
            var sent := if delta == "" then [] else [Ok(Chunk(delta, None, None))];
            && Streamed(done + [r]).prev == (if advance then r.text else Streamed(done).prev)
            && pre + Chunks(Streamed(done + [r]).deltas) == (pre + Chunks(Streamed(done).deltas)) + sent
  {
    assert (done + [r])[..|done|] == done;
    var (delta, advance) := DecodeDelta(Streamed(done).prev, r.text);
    var added := if delta == "" then [] else [delta];
    ChunksAppend(Streamed(done).deltas, added);
    assert Chunks(added) == if delta == "" then [] else [Ok(Chunk(delta, None, None))];
    assert pre + (Chunks(Streamed(done).deltas) + Chunks(added)) == (pre + Chunks(Streamed(done).deltas)) + Chunks(added);
  }

  lemma {:induction false} StreamedPrefix(a: seq<Round>, b: seq<Round>)
    ensures Streamed(a).deltas <= Streamed(a + b).deltas
    decreases |b|
  {
    if b == [] {
      assert a + b == a;
    } else {
      var n := |b| - 1;
      assert (a + b)[..|a + b| - 1] == a + b[..n];
      StreamedPrefix(a, b[..n]);
    }
  }

  lemma ReferenceExtends<C, L, G>(t: Task<L, G>, o: Oracle<C, L>, done: seq<Round>, rng: G, next: Next<G>)
    requires Recompute(t, o, Tokens(done), rng) == Ok(next)
    ensures done + [next.round] <= Prepend(done, Reference(t, o, Tokens(done), rng)).rounds
  {
    if Verdict(t, next.round, |done| + 1).Some? {
      ReferenceEnds(t, o, done, rng, next);
    } else {
      ReferenceGoesOn(t, o, done, rng, next);
    }
  }

  // A receiver that missed a part of a run gets nothing more out of a longer one.
  lemma LongerStream(now: seq<Round>, all: seq<Round>, pre: seq<Item>, closing: Item, limit: Option<nat>)
    requires now <= all && !Heard(limit, pre, now)
    ensures Deliver(limit, pre + (Chunks(Streamed(all).deltas) + [closing])) == Deliver(limit, pre + Chunks(Streamed(now).deltas))
  {
    assert now + all[|now|..] == all;
    StreamedPrefix(now, all[|now|..]);
    var head, rest := Streamed(now).deltas, Streamed(all).deltas[|Streamed(now).deltas|..];
    assert head + rest == Streamed(all).deltas;
    ChunksAppend(head, rest);
    Regroup(Chunks(head), Chunks(rest), [closing]);
    Regroup(pre, Chunks(head), Chunks(rest) + [closing]);
    Regroup(pre, Chunks(head), Chunks(rest));
    DeliverIgnoresRest(limit, pre + Chunks(head), Chunks(rest) + [closing]);
  }

  // When the receiver goes away in mid-stream, nothing later would have arrived.
  lemma DroppedReceiver<C, L, G>(t: Task<L, G>, o: Oracle<C, L>, done: seq<Round>, rng: G, next: Next<G>,
                                 pre: seq<Item>, limit: Option<nat>)
    requires Recompute(t, o, Tokens(done), rng) == Ok(next)
    requires !Heard(limit, pre, done + [next.round])
    ensures var whole := Prepend(done, Reference(t, o, Tokens(done), rng));
            && Deliver(limit, pre + FullLog(|t.prompt|, whole))
               == Deliver(limit, pre + Chunks(Streamed(done + [next.round]).deltas))
            && done + [next.round] <= whole.rounds
  {
    var whole := Prepend(done, Reference(t, o, Tokens(done), rng));
    ReferenceExtends(t, o, done, rng, next);
    LongerStream(done + [next.round], whole.rounds, pre, Closing(|t.prompt|, whole), limit);
  }
}
