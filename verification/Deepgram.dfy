// The Deepgram downlink task (crates/inference-runtime-deepgram/src/runner.rs).
module Deepgram {
  import opened Wrappers
  import opened Channels
  import opened Transcripts
  import Text

  datatype Word = Word(word: string, punctuated: Option<string>, start: real, end: real, confidence: Option<real>,
                       speaker: Option<u32>)

  datatype Alternative = Alternative(transcript: string, words: seq<Word>)

  datatype Results = Results(start: real, duration: real, isFinal: bool, speechFinal: bool, alternatives: seq<Alternative>)

  datatype Envelope = ResultsEnvelope(results: Results) | Metadata | Other

  datatype Options = Options(emitInterim: bool, wantDiarize: bool, wantWords: bool)

  // A saturating cast of the product, negative times clipped to zero.
  function SecondsToMs(s: real): (ms: u32)
    ensures s <= 0.0 ==> ms == 0
  {
    var scaled := s * 1000.0;
    if scaled <= 0.0 then 0
    else if scaled.Floor >= U32_SPAN then U32_SPAN - 1
    else scaled.Floor
  }

  function FirstSpeaker(words: seq<Word>): Option<string> {
    if words == [] then None
    else if words[0].speaker.Some? then Some(Text.Decimal(words[0].speaker.value))
    else FirstSpeaker(words[1..])
  }

  function Timing(w: Word): WordTiming {
    WordTiming(if w.punctuated.Some? then w.punctuated.value else w.word, SecondsToMs(w.start), SecondsToMs(w.end),
               w.confidence)
  }

  // The alternative a chunk is made from.
  function Best(r: Results): Alternative {
    if r.alternatives == [] then Alternative("", []) else r.alternatives[0]
  }

  function ResultsToChunk(requestId: string, r: Results, opts: Options): TranscriptChunk {
    var alt := Best(r);
    TranscriptChunk(
      requestId, r.speechFinal, alt.transcript, SecondsToMs(r.start), SecondsToMs(r.start + r.duration),
      if opts.wantDiarize then FirstSpeaker(alt.words) else None,
      if opts.wantWords then seq(|alt.words|, i requires 0 <= i < |alt.words| => Timing(alt.words[i])) else [])
  }

  lemma SecondsToMsIsMonotone(a: real, b: real)
    requires a <= b
    ensures SecondsToMs(a) <= SecondsToMs(b)
  {
  }

  // Seconds in whole milliseconds, from 0 to the largest 32-bit number.
  predicate IsMillisOf(ms: nat, s: real) {
    && (s <= 0.0 ==> ms == 0)
    && (0.0 < s * 1000.0 < U32_SPAN as real ==> ms as real <= s * 1000.0 < ms as real + 1.0)
    && (s * 1000.0 >= U32_SPAN as real ==> ms == U32_SPAN - 1)
  }

  lemma SecondsToMsIsExact(s: real)
    ensures IsMillisOf(SecondsToMs(s), s)
  {
  }

  lemma {:induction false} FirstSpeakerIsFirst(words: seq<Word>)
    ensures FirstSpeaker(words).Some? <==> exists i :: 0 <= i < |words| && words[i].speaker.Some?
    ensures forall i :: 0 <= i < |words| && words[i].speaker.Some? && (forall j :: 0 <= j < i ==> words[j].speaker.None?)
              ==> FirstSpeaker(words) == Some(Text.Decimal(words[i].speaker.value))
  {
    if words != [] {
      FirstSpeakerIsFirst(words[1..]);
      if words[0].speaker.None? {
        forall i | 0 <= i < |words| && words[i].speaker.Some? && (forall j :: 0 <= j < i ==> words[j].speaker.None?)
          ensures FirstSpeaker(words) == Some(Text.Decimal(words[i].speaker.value))
        {
          assert words[1..][i - 1] == words[i];
          assert forall j :: 0 <= j < i - 1 ==> words[1..][j] == words[j + 1];
        }
        if exists i :: 0 <= i < |words| && words[i].speaker.Some? {
          var i :| 0 <= i < |words| && words[i].speaker.Some?;
          assert words[1..][i - 1].speaker.Some?;
        }
      }
    }
  }

  // What a chunk says about its envelope: final when the utterance is, one
  // timing per word in order if words are wanted, a speaker if one is wanted and
  // known, and every span the right way round and after its predecessor's when
  // the provider's are.
  lemma ChunkFollowsResults(requestId: string, r: Results, opts: Options)
    ensures var c, words := ResultsToChunk(requestId, r, opts), Best(r).words;
            && c.isFinal == r.speechFinal && c.text == Best(r).transcript
            && (r.duration >= 0.0 ==> c.tsStartMs <= c.tsEndMs)
            && (c.speakerId.Some? <==> opts.wantDiarize && exists i :: 0 <= i < |words| && words[i].speaker.Some?)
            && |c.words| == (if opts.wantWords then |words| else 0)
            && (forall i :: 0 <= i < |c.words| && words[i].start <= words[i].end ==> c.words[i].tsStartMs <= c.words[i].tsEndMs)
            && (forall i, j :: 0 <= i < j < |c.words| && words[i].end <= words[j].start ==>
                  c.words[i].tsEndMs <= c.words[j].tsStartMs)
  {
    var c, words := ResultsToChunk(requestId, r, opts), Best(r).words;
    if r.duration >= 0.0 {
      SecondsToMsIsMonotone(r.start, r.start + r.duration);
    }
    FirstSpeakerIsFirst(words);
    forall i | 0 <= i < |c.words| && words[i].start <= words[i].end ensures c.words[i].tsStartMs <= c.words[i].tsEndMs {
      assert c.words[i] == Timing(words[i]);
      SecondsToMsIsMonotone(words[i].start, words[i].end);
    }
    forall i, j | 0 <= i < j < |c.words| && words[i].end <= words[j].start
      ensures c.words[i].tsEndMs <= c.words[j].tsStartMs
    {
      assert c.words[i] == Timing(words[i]) && c.words[j] == Timing(words[j]);
      SecondsToMsIsMonotone(words[i].end, words[j].start);
    }
  }

  // And what it is made of: the envelope's own times in milliseconds, and of every
  // wanted word its punctuated form, if there is one, with its times and confidence.
  lemma ChunkIsOfItsResults(requestId: string, r: Results, opts: Options)
    ensures var c, words := ResultsToChunk(requestId, r, opts), (if r.alternatives == [] then [] else r.alternatives[0].words);
            && c.requestId == requestId
            && c.text == (if r.alternatives == [] then "" else r.alternatives[0].transcript)
            && IsMillisOf(c.tsStartMs, r.start) && IsMillisOf(c.tsEndMs, r.start + r.duration)
            && |c.words| == (if opts.wantWords then |words| else 0)
            && forall i :: 0 <= i < |c.words| ==> IsTimingOf(c.words[i], words[i])
  {
    SecondsToMsIsExact(r.start);
    SecondsToMsIsExact(r.start + r.duration);
    var words := Best(r).words;
    forall i | 0 <= i < |words| ensures IsTimingOf(Timing(words[i]), words[i]) {
      SecondsToMsIsExact(words[i].start);
      SecondsToMsIsExact(words[i].end);
    }
  }

  predicate IsTimingOf(t: WordTiming, w: Word) {
    && (w.punctuated.Some? ==> t.text == w.punctuated.value) && (w.punctuated.None? ==> t.text == w.word)
    && IsMillisOf(t.tsStartMs, w.start) && IsMillisOf(t.tsEndMs, w.end) && t.confidence == w.confidence
  }

  // The speaker is that of the first word that has one.
  lemma ChunkNamesFirstSpeaker(requestId: string, r: Results, opts: Options, i: nat)
    requires opts.wantDiarize && r.alternatives != [] && i < |r.alternatives[0].words| && r.alternatives[0].words[i].speaker.Some?
    requires forall j :: 0 <= j < i ==> r.alternatives[0].words[j].speaker.None?
    ensures ResultsToChunk(requestId, r, opts).speakerId == Some(Text.Decimal(r.alternatives[0].words[i].speaker.value))
  {
    FirstSpeakerIsFirst(r.alternatives[0].words);
  }

  // What a results envelope becomes: dropped while interim results are unwanted
  // and its segment is not final; final when its utterance is.
  function ActOn(requestId: string, opts: Options, event: Event<Envelope>): Act {
    match event
    case Text(Ok(ResultsEnvelope(r))) =>
      if !opts.emitInterim && !r.isFinal then Skip else Keep(ResultsToChunk(requestId, r, opts))
    case Text(Ok(_)) => Skip
    case Text(Err(_)) => Report(DecodeError)
    case Ignored => Skip
    case Close(code) => if NormalClose(code) then Finish else Abort(Closed(code))
    case Broken => Abort(ReceiveError)
  }

  function ActsFor(requestId: string, opts: Options): Event<Envelope> -> Act {
    (event: Event<Envelope>) => ActOn(requestId, opts, event)
  }

  // Exactly the results are kept that are final or while interim ones are wanted.
  lemma KeepsExactly(requestId: string, opts: Options, event: Event<Envelope>)
    ensures var act := ActOn(requestId, opts, event);
            && (act.Keep?
                <==> (event.Text? && event.parsed.Ok? && event.parsed.value.ResultsEnvelope?
                 && (opts.emitInterim || event.parsed.value.results.isFinal)))
            && (act.Keep? ==> act.chunk == ResultsToChunk(requestId, event.parsed.value.results, opts))
  {
  }

  // What each event does to the reading: a close with code 1000, 1005 or 1006 ends
  // it, another close and a failed receive abort it, undecodable text is reported.
  lemma EventsEndReading(requestId: string, opts: Options, event: Event<Envelope>)
    ensures var act := ActOn(requestId, opts, event);
            match event
            case Text(Ok(_)) => act.Keep? || act.Skip?
            case Ignored => act.Skip?
            case Text(Err(_)) => act == Report(DecodeError)
            case Broken => act == Abort(ReceiveError)
            case Close(code) => act == if code == 1000 || code == 1005 || code == 1006 then Finish else Abort(Closed(code))
  {
  }

  // `lastIdx` is where the last final chunk was buffered.
  predicate Marks(produced: seq<TranscriptChunk>, lastIdx: Option<nat>) {
    match lastIdx
    case None => !HasFinal(produced)
    case Some(at) =>
      && at < |produced| && produced[at].isFinal
      && forall i :: at < i < |produced| ==> !produced[i].isFinal
  }

  lemma MarksNext(produced: seq<TranscriptChunk>, lastIdx: Option<nat>, chunk: TranscriptChunk)
    requires Marks(produced, lastIdx)
    ensures Marks(produced + [chunk], if chunk.isFinal then Some(|produced|) else lastIdx)
  {
    HasFinalSnoc(produced, chunk);
  }

  lemma MarksFinal(produced: seq<TranscriptChunk>, lastIdx: Option<nat>)
    requires Marks(produced, lastIdx)
    ensures lastIdx.Some? <==> HasFinal(produced)
  {
  }

  method Read(requestId: string, opts: Options, events: seq<Event<Envelope>>)
    returns (produced: seq<TranscriptChunk>, lastIdx: Option<nat>, stop: Act)
    ensures produced == Kept(events, ActsFor(requestId, opts)) && stop == Stopper(events, ActsFor(requestId, opts))
    ensures Marks(produced, lastIdx)
  {
    ghost var act := ActsFor(requestId, opts);
    produced, lastIdx := [], None;
    for i := 0 to |events|
      invariant produced + Kept(events[i..], act) == Kept(events, act)
      invariant Stopper(events[i..], act) == Stopper(events, act)
      invariant Marks(produced, lastIdx)
    {
      assert events[i..][1..] == events[i + 1..];
      match events[i] {
        case Text(Ok(ResultsEnvelope(r))) =>
          if !opts.emitInterim && !r.isFinal {
            continue;
          }
          var chunk := ResultsToChunk(requestId, r, opts);
          MarksNext(produced, lastIdx, chunk);
          Regroup(produced, [chunk], Kept(events[i + 1..], act));
          if chunk.isFinal {
            lastIdx := Some(|produced|);
          }
          produced := produced + [chunk];
        case Text(Ok(_)) =>
        case Text(Err(_)) => return produced, lastIdx, Report(DecodeError);
        case Ignored =>
        case Close(code) =>
          if code != 1000 && code != 1005 && code != 1006 {
            return produced, lastIdx, Abort(Closed(code));
          }
          return produced, lastIdx, Finish;
        case Broken => return produced, lastIdx, Abort(ReceiveError);
      }
    }
    stop := Finish;
  }

  method Downlink(requestId: string, opts: Options, events: seq<Event<Envelope>>, out: Sender<Item>)
    requires out.Valid()
    modifies out
    ensures out.Valid()
    ensures out.delivered == Deliver(out.limit, old(out.delivered) + Output(requestId, events, ActsFor(requestId, opts)))
  {
    ghost var pre := out.delivered;
    var produced, lastIdx, stop := Read(requestId, opts, events);
    MarksFinal(produced, lastIdx);
    match stop {
      case Abort(e) =>
        var _ := out.Send(Err(e));
        return;
      case Report(e) =>
        var _ := out.Send(Err(e));
        FlushAfter(out.limit, pre, e, Oks(Promoted(requestId, produced)));
      case _ =>
    }
    if lastIdx.None? {
      if produced != [] {
        produced := produced[|produced| - 1 := produced[|produced| - 1].(isFinal := true)];
      } else {
        produced := produced + [Synthetic(requestId)];
      }
    }
    SendAll(produced, out);
  }

  // Without interim results nothing unfinished is passed on.
  lemma OnlyFinishedSegments(requestId: string, opts: Options, events: seq<Event<Envelope>>, i: nat)
    requires !opts.emitInterim && i < |Kept(events, ActsFor(requestId, opts))|
    ensures exists p :: 0 <= p < |events| && events[p].Text? && events[p].parsed.Ok?
                        && events[p].parsed.value.ResultsEnvelope? && events[p].parsed.value.results.isFinal
                        && ResultsToChunk(requestId, events[p].parsed.value.results, opts)
                           == Kept(events, ActsFor(requestId, opts))[i]
  {
    var act := ActsFor(requestId, opts);
    KeptInPlace(events, act, 0);
    var p := Positions(events, act, 0)[i];
    assert act(events[p]) == Keep(Kept(events, act)[i]);
  }

  // Two segments that each end their utterance make two final chunks.
  lemma TwoFinals(requestId: string, opts: Options, first: Results, second: Results)
    requires first.isFinal && first.speechFinal && second.isFinal && second.speechFinal
    ensures var events := [Text(Ok(ResultsEnvelope(first))), Text(Ok(ResultsEnvelope(second)))];
            var a, b := ResultsToChunk(requestId, first, opts), ResultsToChunk(requestId, second, opts);
            Output(requestId, events, ActsFor(requestId, opts)) == [Ok(a), Ok(b)] && a.isFinal && b.isFinal
  {
    TwoFinalEvents(requestId, Text(Ok(ResultsEnvelope(first))), Text(Ok(ResultsEnvelope(second))), ActsFor(requestId, opts),
                   ResultsToChunk(requestId, first, opts), ResultsToChunk(requestId, second, opts));
  }
}
