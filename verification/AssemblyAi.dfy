// The AssemblyAI downlink task (crates/inference-runtime-assemblyai/src/runner.rs).
module AssemblyAi {
  import opened Wrappers
  import opened Channels
  import opened Transcripts

  datatype Word = Word(text: string, start: u32, end: u32, confidence: Option<real>)

  datatype Turn = Turn(endOfTurn: bool, transcript: string, words: seq<Word>)

  datatype Envelope = TurnEnvelope(turn: Turn) | Begin | Termination | Other

  datatype Options = Options(emitInterim: bool, wantWords: bool)

  function TurnToChunk(requestId: string, t: Turn, wantWords: bool): TranscriptChunk {
    TranscriptChunk(
      requestId, t.endOfTurn, t.transcript,
      if t.words == [] then 0 else t.words[0].start,
      if t.words == [] then 0 else t.words[|t.words| - 1].end,
      None,
      if wantWords
      then seq(|t.words|, i requires 0 <= i < |t.words| =>
                 WordTiming(t.words[i].text, t.words[i].start, t.words[i].end, t.words[i].confidence))
      else [])
  }

  // The words of a turn follow one another.
  predicate Chronological(words: seq<Word>) {
    && (forall i :: 0 <= i < |words| ==> words[i].start <= words[i].end)
    && forall i, j :: 0 <= i < j < |words| ==> words[i].end <= words[j].start
  }

  // A chunk is final when its turn is, spans from its first word to its last, which
  // is all of them when they are in order, and has them as they were sent if wanted.
  lemma ChunkSpansItsWords(requestId: string, t: Turn, wantWords: bool)
    ensures var c := TurnToChunk(requestId, t, wantWords);
            && c.requestId == requestId && c.isFinal == t.endOfTurn && c.text == t.transcript && c.speakerId == None
            && |c.words| == (if wantWords then |t.words| else 0)
            && (forall i :: 0 <= i < |c.words| ==>
                  && c.words[i].text == t.words[i].text && c.words[i].confidence == t.words[i].confidence
                  && c.words[i].tsStartMs == t.words[i].start && c.words[i].tsEndMs == t.words[i].end)
            && (t.words == [] ==> c.tsStartMs == c.tsEndMs == 0)
            && (t.words != [] ==> c.tsStartMs == t.words[0].start && c.tsEndMs == t.words[|t.words| - 1].end)
            && (Chronological(t.words) ==>
                  && c.tsStartMs <= c.tsEndMs
                  && forall i :: 0 <= i < |t.words| ==> c.tsStartMs <= t.words[i].start && t.words[i].end <= c.tsEndMs)
  {
    if t.words != [] && Chronological(t.words) {
      HullOfWords(t.words);
    }
  }

  lemma HullOfWords(words: seq<Word>)
    requires Chronological(words) && words != []
    ensures forall i :: 0 <= i < |words| ==> words[0].start <= words[i].start && words[i].end <= words[|words| - 1].end
    ensures words[0].start <= words[|words| - 1].end
  {
    var n := |words| - 1;
    forall i | 0 <= i <= n ensures words[0].start <= words[i].start && words[i].end <= words[n].end {
      assert words[0].start <= words[0].end && words[i].start <= words[i].end && words[n].start <= words[n].end;
    }
  }

  function ActOn(requestId: string, opts: Options, event: Event<Envelope>): Act {
    match event
    case Text(Ok(TurnEnvelope(t))) =>
      if !opts.emitInterim && !t.endOfTurn then Skip else Keep(TurnToChunk(requestId, t, opts.wantWords))
    case Text(Ok(_)) => Skip
    case Text(Err(_)) => Report(DecodeError)
    case Ignored => Skip
    case Close(code) => if NormalClose(code) then Finish else Abort(Closed(code))
    case Broken => Abort(ReceiveError)
  }

  function ActsFor(requestId: string, opts: Options): Event<Envelope> -> Act {
    (event: Event<Envelope>) => ActOn(requestId, opts, event)
  }

  // Exactly the turns are kept that have ended or while interim results are wanted.
  lemma KeepsExactly(requestId: string, opts: Options, event: Event<Envelope>)
    ensures var act := ActOn(requestId, opts, event);
            && (act.Keep?
                <==> (event.Text? && event.parsed.Ok? && event.parsed.value.TurnEnvelope?
                 && (opts.emitInterim || event.parsed.value.turn.endOfTurn)))
            && (act.Keep? ==> act.chunk == TurnToChunk(requestId, event.parsed.value.turn, opts.wantWords))
  {
  }

  // What each event does to the reading: a close with code 1000, 1005 or 1006 ends
  // it, another close and a failed receive abort it, undecodable text is reported.
  lemma EventsEndReading(requestId: string, opts: Options, event: Event<Envelope>)
    ensures var act := ActOn(requestId, opts, event);
            match event
            case Text(Ok(_)) => act.Keep? || act.Skip?
            case Ignored => act.Skip?
            case Text(Err(_)) => act == Report(DecodeError)
            case Broken => act == Abort(ReceiveError)
            case Close(code) => act == if code == 1000 || code == 1005 || code == 1006 then Finish else Abort(Closed(code))
  {
  }

  method Read(requestId: string, opts: Options, events: seq<Event<Envelope>>)
    returns (produced: seq<TranscriptChunk>, sawFinal: bool, stop: Act)
    ensures produced == Kept(events, ActsFor(requestId, opts)) && stop == Stopper(events, ActsFor(requestId, opts))
    ensures sawFinal <==> HasFinal(produced)
  {
    ghost var act := ActsFor(requestId, opts);
    produced, sawFinal := [], false;
    for i := 0 to |events|
      invariant produced + Kept(events[i..], act) == Kept(events, act)
      invariant Stopper(events[i..], act) == Stopper(events, act)
      invariant sawFinal <==> HasFinal(produced)
    {
      assert events[i..][1..] == events[i + 1..];
      match events[i] {
        case Text(Ok(TurnEnvelope(t))) =>
          if !opts.emitInterim && !t.endOfTurn {
            continue;
          }
          var chunk := TurnToChunk(requestId, t, opts.wantWords);
          HasFinalSnoc(produced, chunk);
          Regroup(produced, [chunk], Kept(events[i + 1..], act));
          if chunk.isFinal {
            sawFinal := true;
          }
          produced := produced + [chunk];
        case Text(Ok(_)) =>
        case Text(Err(_)) => return produced, sawFinal, Report(DecodeError);
        case Ignored =>
        case Close(code) =>
          if code != 1000 && code != 1005 && code != 1006 {
            return produced, sawFinal, Abort(Closed(code));
          }
          return produced, sawFinal, Finish;
        case Broken => return produced, sawFinal, Abort(ReceiveError);
      }
    }
    stop := Finish;
  }

  method Downlink(requestId: string, opts: Options, events: seq<Event<Envelope>>, out: Sender<Item>)
    requires out.Valid()
    modifies out
    ensures out.Valid()
    ensures out.delivered == Deliver(out.limit, old(out.delivered) + Output(requestId, events, ActsFor(requestId, opts)))
  {
    ghost var pre := out.delivered;
    var produced, sawFinal, stop := Read(requestId, opts, events);
    match stop {
      case Abort(e) =>
        var _ := out.Send(Err(e));
        return;
      case Report(e) =>
        var _ := out.Send(Err(e));
        FlushAfter(out.limit, pre, e, Oks(Promoted(requestId, produced)));
      case _ =>
    }
    if !sawFinal {
      if produced != [] {
        produced := produced[|produced| - 1 := produced[|produced| - 1].(isFinal := true)];
      } else {
        produced := produced + [Synthetic(requestId)];
      }
    }
    SendAll(produced, out);
  }

  // Two turns that have ended make two final chunks.
  lemma TwoFinals(requestId: string, opts: Options, first: Turn, second: Turn)
    requires first.endOfTurn && second.endOfTurn
    ensures var events := [Text(Ok(TurnEnvelope(first))), Text(Ok(TurnEnvelope(second)))];
            var a, b := TurnToChunk(requestId, first, opts.wantWords), TurnToChunk(requestId, second, opts.wantWords);
            Output(requestId, events, ActsFor(requestId, opts)) == [Ok(a), Ok(b)] && a.isFinal && b.isFinal
  {
    TwoFinalEvents(requestId, Text(Ok(TurnEnvelope(first))), Text(Ok(TurnEnvelope(second))), ActsFor(requestId, opts),
                   TurnToChunk(requestId, first, opts.wantWords), TurnToChunk(requestId, second, opts.wantWords));
  }

  // Without interim results every chunk passed on ends a turn, so the flush adds
  // a final mark only when no turn ended.
  lemma {:induction false} OnlyEndedTurns(requestId: string, opts: Options, events: seq<Event<Envelope>>)
    requires !opts.emitInterim
    ensures var kept := Kept(events, ActsFor(requestId, opts));
            && (forall i :: 0 <= i < |kept| ==> kept[i].isFinal)
            && Promoted(requestId, kept) == if kept == [] then [Synthetic(requestId)] else kept
  {
    if events != [] {
      OnlyEndedTurns(requestId, opts, events[1..]);
    }
  }
}
