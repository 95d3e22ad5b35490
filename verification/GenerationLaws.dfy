// What the generation loop promises, proved about the transcript and the
// message log that Generate.Generator.RunGeneration is specified by.
module GenerationLaws {
  import opened Wrappers
  import opened Generate

  // ---- When and why a generation stops -------------------------------------

  ghost predicate NeverFails<C, L, G>(t: Task<L, G>, o: Oracle<C, L>) {
    && (forall ids :: o.full(ids).Ok?)
    && (forall ids :: t.decode(ids).Ok?)
  }

  ghost predicate Verdicts<C, L, G>(t: Task<L, G>, o: Oracle<C, L>, generated: seq<Token>, run: Transcript) {
    var n := |generated| + |run.rounds|;
    && (forall i :: 0 <= i < |run.rounds| - 1 ==> Verdict(t, run.rounds[i], |generated| + i + 1).None?)
    && match run.end
       case Finished(reason) =>
         run.rounds != [] && Verdict(t, run.rounds[|run.rounds| - 1], n) == Some(reason)
       case Failed(_) =>
         && !NeverFails(t, o)
         && (run.rounds != [] ==> Verdict(t, run.rounds[|run.rounds| - 1], n).None?)
  }

  lemma RecomputeSucceeds<C, L, G>(t: Task<L, G>, o: Oracle<C, L>, generated: seq<Token>, rng: G)
    requires NeverFails(t, o)
    ensures Recompute(t, o, generated, rng).Ok?
  {
    var logits := o.full(t.prompt + generated).value;
    assert t.decode(generated + [t.sample(logits, rng).0]).Ok?;
  }

  lemma {:induction false} ReferenceVerdicts<C, L, G>(t: Task<L, G>, o: Oracle<C, L>, generated: seq<Token>, rng: G)
    ensures Verdicts(t, o, generated, Reference(t, o, generated, rng))
    decreases t.maxNew - |generated|
  {
    if NeverFails(t, o) {
      RecomputeSucceeds(t, o, generated, rng);
    }
    match Recompute(t, o, generated, rng)
    case Err(_) =>
    case Ok(next) =>
      if Verdict(t, next.round, |generated| + 1).None? {
        ReferenceVerdicts(t, o, generated + [next.round.token], next.rng);
        var rest := Reference(t, o, generated + [next.round.token], next.rng);
        var run := Reference(t, o, generated, rng);
        assert run.rounds == [next.round] + rest.rounds;
        assert forall i :: 0 < i < |run.rounds| ==> run.rounds[i] == rest.rounds[i - 1];
      }
  }

  lemma StopLaw<C, L, G>(t: Task<L, G>, o: Oracle<C, L>, rng: G)
    ensures var run := Reference(t, o, [], rng);
            var n := |run.rounds|;
            && (NeverFails(t, o) ==> run.end.Finished?)
            && (run.end.Finished? ==>
                  && 1 <= n <= (if t.maxNew == 0 then 1 else t.maxNew)
                  && var last := run.rounds[n - 1];
                     && (run.end.reason == Length <==> Some(last.token) != t.eos && n >= t.maxNew)
                     && (run.end.reason == Stop <==>
                           Some(last.token) == t.eos || (n < t.maxNew && HitsStop(t.stops, last.text))))
            && (forall i :: 0 <= i < n && (i < n - 1 || run.end.Failed?) ==>
                  && Some(run.rounds[i].token) != t.eos
                  && i + 1 < t.maxNew
                  && !HitsStop(t.stops, run.rounds[i].text))
  {
    ReferenceVerdicts(t, o, [], rng);
    var run := Reference(t, o, [], rng);
    if |run.rounds| > 1 {
      assert Verdict(t, run.rounds[|run.rounds| - 2], |run.rounds| - 1).None?;
    }
  }

  lemma ReferenceUnfolds<C, L, G>(t: Task<L, G>, o: Oracle<C, L>, generated: seq<Token>, rng: G)
    requires Reference(t, o, generated, rng).rounds != []
    ensures Recompute(t, o, generated, rng).Ok?
    ensures var next, rounds := Recompute(t, o, generated, rng).value, Reference(t, o, generated, rng).rounds;
            && rounds[0] == next.round
            && t.decode(generated + [next.round.token]) == Ok(next.round.text)
            && (|rounds| > 1 ==>
                  && Verdict(t, next.round, |generated| + 1).None?
                  && rounds == [next.round] + Reference(t, o, generated + [next.round.token], next.rng).rounds)
  {
  }

  lemma TokensCons(r: Round, rest: seq<Round>, i: nat)
    requires i <= |rest|
    ensures Tokens(([r] + rest)[..i + 1]) == [r.token] + Tokens(rest[..i])
  {
  }

  // The text of a round is the decode of every token up to it.
  lemma {:induction false} RoundsAreDecodes<C, L, G>(t: Task<L, G>, o: Oracle<C, L>, generated: seq<Token>, rng: G, i: nat)
    requires i < |Reference(t, o, generated, rng).rounds|
    ensures var rounds := Reference(t, o, generated, rng).rounds;
            t.decode(generated + Tokens(rounds[..i + 1])) == Ok(rounds[i].text)
    decreases i
  {
    ReferenceUnfolds(t, o, generated, rng);
    var next := Recompute(t, o, generated, rng).value;
    if i == 0 {
      TokensCons(next.round, Reference(t, o, generated, rng).rounds[1..], 0);
      assert Tokens([]) == [] && [next.round.token] + [] == [next.round.token];
      assert Reference(t, o, generated, rng).rounds == [next.round] + Reference(t, o, generated, rng).rounds[1..];
    } else {
      var rest := Reference(t, o, generated + [next.round.token], next.rng).rounds;
      RoundsAreDecodes(t, o, generated + [next.round.token], next.rng, i - 1);
      TokensCons(next.round, rest, i);
      Regroup(generated, [next.round.token], Tokens(rest[..i]));
    }
  }

  // ---- Which tokens are generated ------------------------------------------

  // The sampler's state after some tokens: every sampling step hands on what it
  // leaves behind, on the logits of all tokens before it.
  function SamplerState<C, L, G>(t: Task<L, G>, o: Oracle<C, L>, tokens: seq<Token>, rng: G): G {
    if tokens == [] then rng
    else
      var before := tokens[..|tokens| - 1];
      match o.full(t.prompt + before)
      case Err(_) => rng
      case Ok(logits) => t.sample(logits, SamplerState(t, o, before, rng)).1
  }

  // Token i is what the sampler answers to the logits of everything before it.
  ghost predicate SampledAt<C, L, G>(t: Task<L, G>, o: Oracle<C, L>, tokens: seq<Token>, rng: G, i: nat)
    requires i < |tokens|
  {
    match o.full(t.prompt + tokens[..i])
    case Err(_) => false
    case Ok(logits) => tokens[i] == t.sample(logits, SamplerState(t, o, tokens[..i], rng)).0
  }

  lemma SampledAtExtends<C, L, G>(t: Task<L, G>, o: Oracle<C, L>, tokens: seq<Token>, more: seq<Token>, rng: G, i: nat)
    requires i < |tokens| && SampledAt(t, o, tokens, rng, i)
    ensures SampledAt(t, o, tokens + more, rng, i)
  {
    assert (tokens + more)[..i] == tokens[..i];
  }

  lemma SampledNext<C, L, G>(t: Task<L, G>, o: Oracle<C, L>, done: seq<Token>, rng: G, next: Next<G>)
    requires Recompute(t, o, done, SamplerState(t, o, done, rng)) == Ok(next)
    ensures SampledAt(t, o, done + [next.round.token], rng, |done|)
    ensures SamplerState(t, o, done + [next.round.token], rng) == next.rng
  {
    assert (done + [next.round.token])[..|done|] == done;
  }

  lemma TokensOfCons(r: Round, rest: seq<Round>)
    ensures Tokens([r] + rest) == [r.token] + Tokens(rest)
  {
  }

  lemma GoesOnFrom<C, L, G>(t: Task<L, G>, o: Oracle<C, L>, done: seq<Token>, state: G, next: Next<G>)
    requires Recompute(t, o, done, state) == Ok(next) && Verdict(t, next.round, |done| + 1).None?
    ensures var now := done + [next.round.token];
            done + Tokens(Reference(t, o, done, state).rounds) == now + Tokens(Reference(t, o, now, next.rng).rounds)
  {
    var rest := Reference(t, o, done + [next.round.token], next.rng).rounds;
    TokensOfCons(next.round, rest);
    Regroup(done, [next.round.token], Tokens(rest));
  }

  // A run that has come to `done` goes on sampling from there.
  lemma {:induction false} GoesOnSampling<C, L, G>(t: Task<L, G>, o: Oracle<C, L>, done: seq<Token>, rng: G, state: G)
    requires state == SamplerState(t, o, done, rng)
    requires forall i :: 0 <= i < |done| ==> SampledAt(t, o, done, rng, i)
    ensures var all := done + Tokens(Reference(t, o, done, state).rounds);
            forall i :: 0 <= i < |all| ==> SampledAt(t, o, all, rng, i)
    decreases t.maxNew - |done|
  {
    match Recompute(t, o, done, state)
    case Err(_) => assert done + Tokens([]) == done;
    case Ok(next) =>
      var now := done + [next.round.token];
      SampledNext(t, o, done, rng, next);
      forall i | 0 <= i < |now| ensures SampledAt(t, o, now, rng, i) {
        if i < |done| {
          SampledAtExtends(t, o, done, [next.round.token], rng, i);
        }
      }
      if Verdict(t, next.round, |done| + 1).Some? {
        assert done + Tokens([next.round]) == now;
      } else {
        GoesOnSampling(t, o, now, rng, next.rng);
        GoesOnFrom(t, o, done, state, next);
      }
  }

  lemma SampledInRounds<C, L, G>(t: Task<L, G>, o: Oracle<C, L>, rounds: seq<Round>, rng: G, i: nat)
    requires i < |rounds| && SampledAt(t, o, Tokens(rounds), rng, i)
    ensures o.full(t.prompt + Tokens(rounds[..i])).Ok?
    ensures var (token, after) := t.sample(o.full(t.prompt + Tokens(rounds[..i])).value, SamplerState(t, o, Tokens(rounds[..i]), rng));
            rounds[i].token == token && SamplerState(t, o, Tokens(rounds[..i + 1]), rng) == after
  {
    assert Tokens(rounds)[..i] == Tokens(rounds[..i]);
    assert Tokens(rounds[..i + 1])[..i] == Tokens(rounds[..i]);
  }

  // Every token of a run is the sampler's answer to the logits of the prompt and
  // all tokens before it, in the state that the sampling before it left behind.
  lemma TokensAreSampled<C, L, G>(t: Task<L, G>, o: Oracle<C, L>, rng: G, i: nat)
    requires i < |Reference(t, o, [], rng).rounds|
    ensures var rounds := Reference(t, o, [], rng).rounds;
            && o.full(t.prompt + Tokens(rounds[..i])).Ok?
            && var (token, after) := t.sample(o.full(t.prompt + Tokens(rounds[..i])).value, SamplerState(t, o, Tokens(rounds[..i]), rng));
               rounds[i].token == token && SamplerState(t, o, Tokens(rounds[..i + 1]), rng) == after
    ensures SamplerState(t, o, [], rng) == rng
  {
    var rounds := Reference(t, o, [], rng).rounds;
    GoesOnSampling(t, o, [], rng, rng);
    assert [] + Tokens(rounds) == Tokens(rounds);
    SampledInRounds(t, o, rounds, rng, i);
  }

  // A sampler that answers its state and counts it up: 0, then 1.
  lemma SamplerMovesOn<C, L(!new)>(prompt: seq<Token>, decode: seq<Token> -> Result<string, Failure>, o: Oracle<C, L>, t: Task<L, nat>)
    requires t.prompt == prompt && t.decode == decode && t.eos == None && t.stops == [] && t.maxNew == 2
    requires forall l, g :: t.sample(l, g) == (g, g + 1)
    requires o.full(prompt).Ok? && o.full(prompt + [0]).Ok? && decode([0]).Ok? && decode([0, 1]).Ok?
    ensures Tokens(Reference(t, o, [], 0).rounds) == [0, 1]
  {
    assert prompt + [] == prompt && [] + [0] == [0] && [0] + [1] == [0, 1];
    var first := Round(0, decode([0]).value);
    assert Recompute(t, o, [], 0) == Ok(Next(first, 1));
    assert Recompute(t, o, [0], 1) == Ok(Next(Round(1, decode([0, 1]).value), 2));
    assert Reference(t, o, [0], 1).rounds == [Round(1, decode([0, 1]).value)];
    TokensOfCons(first, Reference(t, o, [0], 1).rounds);
  }

  // A run fails with the error of the session or of the decoder, in the round after
  // its last one.
  lemma {:induction false} FailsWithItsError<C, L, G>(t: Task<L, G>, o: Oracle<C, L>, done: seq<Token>, rng: G)
    requires Reference(t, o, done, rng).end.Failed?
    ensures var run := Reference(t, o, done, rng);
            var tokens := done + Tokens(run.rounds);
            match o.full(t.prompt + tokens)
            case Err(e) => run.end == Failed(e)
            case Ok(logits) => exists g :: t.decode(tokens + [t.sample(logits, g).0]) == Err(run.end.err)
    decreases t.maxNew - |done|
  {
    match Recompute(t, o, done, rng)
    case Err(_) => assert done + Tokens([]) == done;
    case Ok(next) =>
      var now := done + [next.round.token];
      FailsWithItsError(t, o, now, next.rng);
      GoesOnFrom(t, o, done, rng, next);
  }

  // ---- The messages --------------------------------------------------------

  // All messages but the last carry text and nothing else.  The last carries the
  // error of a failed run; or else the reason it ended and how many tokens went in
  // and came out.
  lemma LastMessageCloses(promptLen: nat, t: Transcript)
    requires promptLen < U32_SPAN
    ensures var log := FullLog(promptLen, t); var n := |log| - 1;
            && n >= 0
            && (forall i :: 0 <= i < n ==> log[i].Ok? && log[i].value.usage == None && log[i].value.finish == None)
            && match t.end
               case Failed(e) => log[n] == Err(e)
               case Finished(reason) =>
                 log[n].Ok? && log[n].value.finish == Some(reason) && log[n].value.usage == Some(Usage(promptLen, |t.rounds|))
  {
  }

  // Without 32-bit logits there is nothing but that error.
  lemma UnsupportedLogits<C, L, G>(g: Generator<C, L, G>, promptLen: nat, rng: G)
    requires !g.session.topo.logitsAreF32
    ensures FullLog(promptLen, g.Outcome(rng)) == [Err(BadRequest)]
  {
    assert Chunks(Streamed([]).deltas) == [];
  }

  // ---- How often the session is called -------------------------------------

  lemma HeardBefore(limit: Option<nat>, pre: seq<Item>, rounds: seq<Round>, n: nat)
    requires n <= |rounds| && Heard(limit, pre, rounds)
    ensures Heard(limit, pre, rounds[..n])
  {
    StreamedPrefix(rounds[..n], rounds[n..]);
    assert rounds[..n] + rounds[n..] == rounds;
  }

  // The number of calls that RunLoop states is the only one there can be, and a
  // receiver that hears all the deltas sees every round begun.
  lemma CallsAreDetermined(limit: Option<nat>, pre: seq<Item>, t: Transcript, n: int, n': int)
    requires StopsAfter(limit, pre, t, n) && StopsAfter(limit, pre, t, n')
    ensures n == n'
    ensures Heard(limit, pre, t.rounds) ==> n == Rounds(t)
  {
    var low, high := if n < n' then n else n', if n < n' then n' else n;
    if low < high {
      assert t.rounds[..high - 1][..low] == t.rounds[..low];
      HeardBefore(limit, pre, t.rounds[..high - 1], low);
    }
    if n < Rounds(t) && Heard(limit, pre, t.rounds) {
      HeardBefore(limit, pre, t.rounds, n);
    }
  }

  // ---- What the session is fed ---------------------------------------------

  // The concatenation of one input tensor over recorded session calls.
  function FedIds<C>(calls: seq<Inputs<C>>): seq<Token> {
    if calls == [] then [] else FedIds(calls[..|calls| - 1]) + calls[|calls| - 1].ids
  }

  function FedPositions<C>(calls: seq<Inputs<C>>): seq<nat> {
    if calls == [] then []
    else
      FedPositions(calls[..|calls| - 1])
      + (match calls[|calls| - 1].positions case Some(p) => p case None => [])
  }

  lemma CallsShorten<C, L, G>(g: Generator<C, L, G>, calls: seq<Inputs<C>>, from: nat, tokens: seq<Token>)
    requires g.CallsAre(calls, from, tokens) && |calls| > from
    ensures g.CallsAre(calls[..|calls| - 1], from, tokens)
    ensures calls[|calls| - 1] == g.ExpectedInputs(tokens, |calls| - 1 - from)
    ensures calls[from..][..|calls| - 1 - from] == calls[..|calls| - 1][from..]
  {
    assert calls[from + (|calls| - 1 - from)] == g.ExpectedInputs(tokens, |calls| - 1 - from);
  }

  lemma NextIds(prompt: seq<Token>, tokens: seq<Token>, n: nat)
    requires 0 < n <= |tokens|
    ensures (prompt + tokens[..n - 1]) + [tokens[n - 1]] == prompt + tokens[..n]
  {
  }

  // 0, 1, 2, ... up to n
  predicate CountsUp(s: seq<nat>, n: nat) {
    |s| == n && forall i :: 0 <= i < n ==> s[i] == i
  }

  lemma NextPositions(s: seq<nat>, from: nat, n: nat)
    requires CountsUp(s, from)
    ensures CountsUp(s + Iota(from, n), from + n)
  {
  }

  // The calls that a run has recorded (see Generator.RunLoop) feed the prompt and
  // then each token once and in order, and their position ids are 0, 1, 2, ...
  // without a gap or a repeat.
  lemma {:induction false} FedOnceInOrder<C, L, G>(g: Generator<C, L, G>, calls: seq<Inputs<C>>, from: nat, tokens: seq<Token>)
    requires g.CallsAre(calls, from, tokens) && |calls| > from
    ensures var n := |calls| - from;
            && FedIds(calls[from..]) == g.task.prompt + tokens[..n - 1]
            && (g.session.topo.hasPositions ==> CountsUp(FedPositions(calls[from..]), |g.task.prompt| + n - 1))
    decreases |calls|
  {
    var n := |calls| - from;
    CallsShorten(g, calls, from, tokens);
    if n == 1 {
      assert calls[from..][..0] == [];
      assert g.task.prompt + tokens[..0] == g.task.prompt;
      NextPositions([], 0, |g.task.prompt|);
    } else {
      FedOnceInOrder(g, calls[..|calls| - 1], from, tokens);
      NextIds(g.task.prompt, tokens, n - 1);
      assert |g.task.prompt + tokens[..n - 2]| == |g.task.prompt| + n - 2;
      if g.session.topo.hasPositions {
        NextPositions(FedPositions(calls[..|calls| - 1][from..]), |g.task.prompt| + n - 2, 1);
      }
    }
  }

  // Every call attends to exactly the tokens so far, by a mask of as many ones and
  // through the cache of all but those it is fed.
  lemma MaskCoversAllIds<C, L, G>(g: Generator<C, L, G>, calls: seq<Inputs<C>>, from: nat, tokens: seq<Token>, i: nat)
    requires g.CallsAre(calls, from, tokens) && i < |calls| - from
    ensures var call := calls[from + i];
            var allIds := g.task.prompt + tokens[..i];
            && (g.session.topo.hasMask <==> call.mask.Some?) && (g.session.topo.hasPositions <==> call.positions.Some?)
            && (call.mask.Some? ==> |call.mask.value| == |allIds| && forall j :: 0 <= j < |allIds| ==> call.mask.value[j] == 1)
            && (i == 0 ==> call.cache == g.oracle.cacheOf([]) && call.ids == allIds)
            && (i > 0 ==> call.cache == g.oracle.cacheOf(allIds[..|allIds| - 1]) && call.ids == allIds[|allIds| - 1..])
  {
    assert calls[from + i] == g.ExpectedInputs(tokens, i);
    var allIds := g.task.prompt + tokens[..i];
    if i > 0 {
      assert allIds[..|allIds| - 1] == g.task.prompt + tokens[..i - 1];
    } else {
      assert allIds == g.task.prompt;
    }
  }

  // ---- The streamed text ---------------------------------------------------

  function TextOf(items: seq<Item>): string {
    if items == [] then ""
    else TextOf(items[..|items| - 1]) + (match items[|items| - 1] case Ok(c) => c.textDelta case Err(_) => "")
  }

  function Concat(deltas: seq<string>): string {
    if deltas == [] then "" else Concat(deltas[..|deltas| - 1]) + deltas[|deltas| - 1]
  }

  // The decode of round k does not extend what is accounted for by then.
  predicate Retracts(rounds: seq<Round>, k: nat)
    requires k < |rounds|
  {
    !(Streamed(rounds[..k]).prev <= rounds[k].text)
  }

  predicate NeverRetracts(rounds: seq<Round>) {
    forall k :: 0 <= k < |rounds| ==> !Retracts(rounds, k)
  }

  lemma NeverRetractsSnoc(rounds: seq<Round>)
    requires rounds != []
    ensures var n := |rounds| - 1; NeverRetracts(rounds) <==> NeverRetracts(rounds[..n]) && !Retracts(rounds, n)
  {
    var n := |rounds| - 1;
    forall k | 0 <= k < n ensures Retracts(rounds, k) == Retracts(rounds[..n], k) {
      assert rounds[..n][..k] == rounds[..k];
    }
  }

  lemma ConcatSnoc(deltas: seq<string>, d: string)
    ensures Concat(deltas + [d]) == Concat(deltas) + d
  {
    assert (deltas + [d])[..|deltas|] == deltas;
  }

  // One round: what has been sent, against what is accounted for.
  lemma OneDelta(sent: string, prev: string, text: string)
    ensures var (delta, advance) := DecodeDelta(prev, text);
            var now := if advance then text else prev;
            && now <= text
            && (sent == prev && prev <= text ==> sent + delta == now)
            && (sent == prev && !(prev <= text) ==> |sent + delta| > |now|)
            && (|sent| > |prev| ==> |sent + delta| > |now|)
  {
    if prev <= text {
      assert text == prev + text[|prev|..];
    }
  }

  lemma ConcatStreamed(rounds: seq<Round>)
    requires rounds != []
    ensures var n := |rounds| - 1;
            var before := Streamed(rounds[..n]);
            Concat(Streamed(rounds).deltas) == Concat(before.deltas) + DecodeDelta(before.prev, rounds[n].text).0
  {
    var n := |rounds| - 1;
    var before := Streamed(rounds[..n]);
    var delta := DecodeDelta(before.prev, rounds[n].text).0;
    if delta != "" {
      ConcatSnoc(before.deltas, delta);
    } else {
      assert before.deltas + [] == before.deltas;
      assert Concat(before.deltas) + "" == Concat(before.deltas);
    }
  }

  // After some rounds: the text sent is the text accounted for if nothing was
  // retracted, and longer than that for good if something was; either way the
  // text accounted for is a prefix of the latest decode.
  lemma {:induction false} SentAgainstAccounted(rounds: seq<Round>)
    ensures var s := Streamed(rounds);
            && s.prev <= LastText(rounds)
            && (NeverRetracts(rounds) ==> Concat(s.deltas) == s.prev)
            && (!NeverRetracts(rounds) ==> |Concat(s.deltas)| > |s.prev|)
  {
    if rounds != [] {
      var n := |rounds| - 1;
      var before := Streamed(rounds[..n]);
      SentAgainstAccounted(rounds[..n]);
      NeverRetractsSnoc(rounds);
      ConcatStreamed(rounds);
      OneDelta(Concat(before.deltas), before.prev, rounds[n].text);
    }
  }

  lemma {:induction false} ChunksText(deltas: seq<string>)
    ensures TextOf(Chunks(deltas)) == Concat(deltas)
  {
    if deltas != [] {
      var n := |deltas| - 1;
      assert Chunks(deltas)[..n] == Chunks(deltas[..n]);
      ChunksText(deltas[..n]);
    }
  }

  lemma AccountedFor(prev: string, full: string)
    requires full == "" || full[|full| - 1] != '\U{FFFD}'
    ensures DecodeDelta(prev, full).1
  {
    if prev <= full && |prev| < |full| {
      assert full[|prev|..][|full| - |prev| - 1] == full[|full| - 1];
    }
  }

  lemma LatestAccounted(rounds: seq<Round>)
    requires rounds != [] && (LastText(rounds) == "" || LastText(rounds)[|LastText(rounds)| - 1] != '\U{FFFD}')
    ensures Streamed(rounds).prev == LastText(rounds)
  {
    AccountedFor(Streamed(rounds[..|rounds| - 1]).prev, LastText(rounds));
  }

  lemma SentIsAccounted(rounds: seq<Round>)
    requires NeverRetracts(rounds)
    ensures Concat(Streamed(rounds).deltas) == Streamed(rounds).prev
  {
    SentAgainstAccounted(rounds);
  }

  // Text is held back only at the end of a decode that ends in the replacement
  // character; otherwise everything decoded has been streamed, if nothing was retracted.
  lemma NothingElseIsHeldBack(rounds: seq<Round>)
    requires rounds != []
    ensures LastText(rounds) == "" || LastText(rounds)[|LastText(rounds)| - 1] != '\U{FFFD}' ==> Streamed(rounds).prev == LastText(rounds)
    ensures NeverRetracts(rounds) ==> Concat(Streamed(rounds).deltas) == Streamed(rounds).prev
  {
    if LastText(rounds) == "" || LastText(rounds)[|LastText(rounds)| - 1] != '\U{FFFD}' {
      LatestAccounted(rounds);
    }
    if NeverRetracts(rounds) {
      SentIsAccounted(rounds);
    }
  }

  // The chunks of a finished run add up to the decode of everything generated
  // exactly when no decode retracted text that had been accounted for.
  lemma Reassembly(promptLen: nat, t: Transcript)
    requires t.end.Finished?
    ensures TextOf(FullLog(promptLen, t)) == LastText(t.rounds) <==> NeverRetracts(t.rounds)
  {
    var s, full := Streamed(t.rounds), LastText(t.rounds);
    SentAgainstAccounted(t.rounds);
    ChunksText(s.deltas);
    assert FullLog(promptLen, t)[..|s.deltas|] == Chunks(s.deltas);
    assert TextOf(FullLog(promptLen, t)) == Concat(s.deltas) + Tail(s.prev, full);
    assert full == s.prev + Tail(s.prev, full);
  }

  // Such a decode: "a", then "b" in its place.  What was streamed is "ab".
  lemma RetractionShows(promptLen: nat, reason: FinishReason)
    ensures var t := Transcript([Round(0, "a"), Round(1, "b")], Finished(reason));
            TextOf(FullLog(promptLen, t)) == "ab" != LastText(t.rounds)
  {
    var one, two := [Round(0, "a")], [Round(0, "a"), Round(1, "b")];
    assert two[..1] == one && one[..0] == [];
    assert Streamed(one) == Stream(["a"], "a");
    assert Streamed(two) == Stream(["a"] + ["b"], "b");
    var t := Transcript(two, Finished(reason));
    ChunksText(Streamed(two).deltas);
    assert FullLog(promptLen, t)[..2] == Chunks(Streamed(two).deltas);
    assert Streamed(two).deltas[..1] == ["a"] && ["a"][..0] == [];
  }

  predicate HeldBack(deltas: seq<string>) {
    forall i :: 0 <= i < |deltas| ==> deltas[i] != "" && !EndsWithReplacement(deltas[i])
  }

  predicate RetractionsEndWhole(rounds: seq<Round>) {
    forall k :: 0 <= k < |rounds| && Retracts(rounds, k) ==> !EndsWithReplacement(rounds[k].text)
  }

  lemma RetractionsEndWholeSnoc(rounds: seq<Round>)
    requires rounds != []
    ensures var n := |rounds| - 1;
            RetractionsEndWhole(rounds)
            <==> RetractionsEndWhole(rounds[..n]) && (Retracts(rounds, n) ==> !EndsWithReplacement(rounds[n].text))
  {
    var n := |rounds| - 1;
    forall k | 0 <= k < n ensures Retracts(rounds, k) == Retracts(rounds[..n], k) {
      assert rounds[..n][..k] == rounds[..k];
    }
  }

  lemma HeldBackSnoc(deltas: seq<string>, d: string)
    ensures HeldBack(deltas + [d]) <==> HeldBack(deltas) && d != "" && !EndsWithReplacement(d)
  {
    var all := deltas + [d];
    assert all[|deltas|] == d;
    assert forall i :: 0 <= i < |deltas| ==> all[i] == deltas[i];
  }

  lemma DeltaEndsInReplacement(prev: string, text: string)
    ensures EndsWithReplacement(DecodeDelta(prev, text).0) <==> !(prev <= text) && EndsWithReplacement(text)
  {
  }

  // A delta before the flush ends in the replacement character only where a
  // retraction resends such a text whole.
  lemma {:induction false} PartialCharactersAreHeldBack(rounds: seq<Round>)
    ensures HeldBack(Streamed(rounds).deltas) <==> RetractionsEndWhole(rounds)
  {
    if rounds != [] {
      var n := |rounds| - 1;
      PartialCharactersAreHeldBack(rounds[..n]);
      RetractionsEndWholeSnoc(rounds);
      var before := Streamed(rounds[..n]);
      var delta := DecodeDelta(before.prev, rounds[n].text).0;
      DeltaEndsInReplacement(before.prev, rounds[n].text);
      if delta != "" {
        HeldBackSnoc(before.deltas, delta);
      } else {
        assert before.deltas + [] == before.deltas;
      }
    }
  }
}
