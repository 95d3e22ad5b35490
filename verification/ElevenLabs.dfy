// The ElevenLabs downlink task (crates/inference-runtime-elevenlabs/src/runner.rs).
module ElevenLabs {
  import opened Wrappers
  import opened Channels

  datatype WsAlignment = WsAlignment(chars: seq<string>, startsMs: seq<u32>, durationsMs: seq<u32>)

  datatype Timing = Timing(text: string, tsStartMs: u32, tsEndMs: u32)

  datatype InboundFrame = InboundFrame(audio: Option<string>, alignment: Option<WsAlignment>, isFinal: Option<bool>)

  datatype WsError = DecodeError | AudioError | Closed(code: nat) | ReceiveError

  // One outcome of polling the socket; past the last one the stream has ended.
  datatype Event = Text(parsed: Result<InboundFrame, ()>) | Ignored | Close(code: nat) | Broken

  datatype SpeechChunk = SpeechChunk(requestId: string, isFinal: bool, audio: seq<byte>, alignment: Option<seq<Timing>>)

  type Item = Result<SpeechChunk, WsError>

  // The batch's settings, and the base64 decoder of the library used here.
  datatype Config = Config(requestId: string, emitAlignment: bool, decode: string -> Result<seq<byte>, ()>)

  // ---- Alignment -----------------------------------------------------------

  function Min3(a: nat, b: nat, c: nat): nat {
    var ab := if a < b then a else b;
    if ab < c then ab else c
  }

  function SaturatingAdd(a: u32, b: u32): u32 {
    if a as nat + b as nat < U32_SPAN then a + b else U32_SPAN - 1
  }

  function Timings(a: WsAlignment): seq<Timing> {
    seq(Min3(|a.chars|, |a.startsMs|, |a.durationsMs|),
        i requires 0 <= i < Min3(|a.chars|, |a.startsMs|, |a.durationsMs|) =>
          Timing(a.chars[i], a.startsMs[i], SaturatingAdd(a.startsMs[i], a.durationsMs[i])))
  }

  method WsAlignmentToDelta(a: WsAlignment) returns (words: seq<Timing>)
    ensures words == Timings(a)
    ensures forall i :: 0 <= i < |words| ==> words[i].tsStartMs <= words[i].tsEndMs
  {
    var n := Min3(|a.chars|, |a.startsMs|, |a.durationsMs|);
    words := [];
    for i := 0 to n
      invariant words == Timings(a)[..i]
    {
      words := words + [Timing(a.chars[i], a.startsMs[i], SaturatingAdd(a.startsMs[i], a.durationsMs[i]))];
    }
  }

  // ---- The output of a run of events ---------------------------------------

  function FinalChunk(requestId: string): SpeechChunk {
    SpeechChunk(requestId, true, [], None)
  }

  function AudioOf(cfg: Config, frame: InboundFrame): Result<seq<byte>, ()> {
    match frame.audio
    case Some(b64) => if b64 != "" then cfg.decode(b64) else Ok([])
    case None => Ok([])
  }

  function AlignmentOf(cfg: Config, frame: InboundFrame): Option<seq<Timing>> {
    if cfg.emitAlignment && frame.alignment.Some? then Some(Timings(frame.alignment.value)) else None
  }

  datatype Act = Emit(chunk: SpeechChunk) | Skip | Finish | Fail(err: WsError)

  function ActOn(cfg: Config, event: Event): Act {
    match event
    case Text(Ok(frame)) =>
      (match AudioOf(cfg, frame)
       case Err(_) => Fail(AudioError)
       case Ok(audio) =>
         var isFinal := frame.isFinal == Some(true);
         var alignment := AlignmentOf(cfg, frame);
         if audio == [] && alignment.None? && !isFinal then Skip
         else Emit(SpeechChunk(cfg.requestId, isFinal, audio, alignment)))
    case Text(Err(_)) => Fail(DecodeError)
    case Ignored => Skip
    case Close(code) => if code != 1000 then Fail(Closed(code)) else Finish
    case Broken => Fail(ReceiveError)
  }

  // What a frame becomes: nothing if it has neither audio nor wanted alignment nor
  // is final; otherwise a chunk with what it has.  Empty audio is not decoded.
  lemma FrameMeans(cfg: Config, frame: InboundFrame)
    ensures var act := ActOn(cfg, Text(Ok(frame)));
            var hasAudio := frame.audio.Some? && frame.audio.value != "";
            if hasAudio && cfg.decode(frame.audio.value).Err? then act == Fail(AudioError)
            else
              var audio := if hasAudio then cfg.decode(frame.audio.value).value else [];
              if audio == [] && !(cfg.emitAlignment && frame.alignment.Some?) && frame.isFinal != Some(true) then act == Skip
              else
                && act.Emit? && act.chunk.requestId == cfg.requestId && act.chunk.audio == audio
                && (act.chunk.isFinal <==> frame.isFinal == Some(true))
                && (act.chunk.alignment.Some? <==> cfg.emitAlignment && frame.alignment.Some?)
                && (act.chunk.alignment.Some? ==> act.chunk.alignment.value == Timings(frame.alignment.value))
  {
  }

  // What the other events do: only a close with code 1000 is no error.
  lemma OtherEventsMean(cfg: Config, event: Event)
    ensures match event
            case Text(Ok(_)) => true
            case Text(Err(_)) => ActOn(cfg, event) == Fail(DecodeError)
            case Ignored => ActOn(cfg, event) == Skip
            case Close(code) => ActOn(cfg, event) == if code == 1000 then Finish else Fail(Closed(code))
            case Broken => ActOn(cfg, event) == Fail(ReceiveError)
  {
  }

  // As many timings as all three lists have entries for, each from its character's
  // start to the end of its duration, as far as 32 bits go.
  lemma TimingsPairUp(a: WsAlignment, i: nat)
    requires i < |a.chars| && i < |a.startsMs| && i < |a.durationsMs|
    ensures i < |Timings(a)| && Timings(a)[i].text == a.chars[i] && Timings(a)[i].tsStartMs == a.startsMs[i]
    ensures a.startsMs[i] as nat + a.durationsMs[i] as nat < U32_SPAN ==>
              Timings(a)[i].tsEndMs as nat == a.startsMs[i] as nat + a.durationsMs[i] as nat
    ensures a.startsMs[i] as nat + a.durationsMs[i] as nat >= U32_SPAN ==> Timings(a)[i].tsEndMs == U32_SPAN - 1
    ensures |Timings(a)| <= |a.chars| && |Timings(a)| <= |a.startsMs| && |Timings(a)| <= |a.durationsMs|
  {
  }

  function Output(events: seq<Event>, act: Event -> Act, closing: SpeechChunk): seq<Item> {
    if events == [] then [Ok(closing)]
    else
      match act(events[0])
      case Emit(chunk) => [Ok(chunk)] + (if chunk.isFinal then [] else Output(events[1..], act, closing))
      case Skip => Output(events[1..], act, closing)
      case Finish => [Ok(closing)]
      case Fail(e) => [Err(e), Ok(closing)]
  }

  function ActsFor(cfg: Config): Event -> Act {
    (event: Event) => ActOn(cfg, event)
  }

  // ---- The code ------------------------------------------------------------

  function Last(closing: SpeechChunk): seq<Item> {
    [Ok(closing)]
  }

  // How one pass of the loop ends.
  datatype Pass = GoOn | BreakOff | SentFinal

  method Decide(cfg: Config, event: Event) returns (act: Act)
    ensures act == ActOn(cfg, event)
  {
    match event {
      case Text(Ok(frame)) =>
        var audio: seq<byte> := [];
        if frame.audio.Some? && frame.audio.value != "" {
          var decoded := cfg.decode(frame.audio.value);
          if decoded.Err? {
            return Fail(AudioError);
          }
          audio := decoded.value;
        }
        var alignment: Option<seq<Timing>> := None;
        if cfg.emitAlignment && frame.alignment.Some? {
          var words := WsAlignmentToDelta(frame.alignment.value);
          alignment := Some(words);
        }
        var isFinal := if frame.isFinal.Some? then frame.isFinal.value else false;
        if audio == [] && alignment.None? && !isFinal {
          return Skip;
        }
        return Emit(SpeechChunk(cfg.requestId, isFinal, audio, alignment));
      case Text(Err(_)) => return Fail(DecodeError);
      case Ignored => return Skip;
      case Close(code) =>
        if code != 1000 {
          return Fail(Closed(code));
        }
        return Finish;
      case Broken => return Fail(ReceiveError);
    }
  }

  function Sent(act: Act): seq<Item> {
    match act
    case Emit(chunk) => [Ok(chunk)]
    case Fail(e) => [Err(e)]
    case _ => []
  }

  function PassOf(act: Act, listening: bool): Pass {
    match act
    case Emit(chunk) => if !listening then BreakOff else if chunk.isFinal then SentFinal else GoOn
    case Skip => GoOn
    case _ => BreakOff
  }

  // One pass: send what the event calls for.  `listening` is false once a
  // chunk has found nobody there.
  method Pump(act: Act, out: Sender<Item>) returns (pass: Pass, listening: bool)
    requires out.Valid()
    modifies out
    ensures out.Valid()
    ensures out.delivered == Deliver(out.limit, old(out.delivered) + Sent(act))
    ensures act.Emit? ==> (listening <==> Fits(out.limit, |old(out.delivered) + Sent(act)|))
    ensures pass == PassOf(act, listening)
  {
    listening := true;
    match act {
      case Skip =>
        assert out.delivered + [] == out.delivered;
        pass := GoOn;
      case Finish =>
        assert out.delivered + [] == out.delivered;
        pass := BreakOff;
      case Fail(e) =>
        var _ := out.Send(Err(e));
        pass := BreakOff;
      case Emit(chunk) =>
        listening := out.Send(Ok(chunk));
        pass := if !listening then BreakOff else if chunk.isFinal then SentFinal else GoOn;
    }
  }

  // What is still owed once the loop has read some of the events.
  ghost predicate Owes(limit: Option<nat>, delivered: seq<Item>, rest: seq<Item>, whole: seq<Item>) {
    Deliver(limit, delivered + rest) == Deliver(limit, whole)
  }

  lemma OwesAfter(limit: Option<nat>, before: seq<Item>, sent: seq<Item>, rest: seq<Item>, whole: seq<Item>)
    requires Owes(limit, before, sent + rest, whole)
    ensures Owes(limit, Deliver(limit, before + sent), rest, whole)
  {
    DeliverInTwo(limit, before + sent, rest);
    assert (before + sent) + rest == before + (sent + rest);
  }

  // Nobody is owed anything once a message has found nobody there.
  lemma OwesNothing(limit: Option<nat>, before: seq<Item>, sent: seq<Item>, rest: seq<Item>, other: seq<Item>, whole: seq<Item>)
    requires Owes(limit, before, sent + rest, whole) && !Fits(limit, |before + sent|)
    ensures Owes(limit, Deliver(limit, before + sent), other, whole)
  {
    assert (before + sent) + rest == before + (sent + rest);
    DeliverIgnoresRest(limit, before + sent, rest);
    DeliverInTwo(limit, before + sent, other);
    DeliverIgnoresRest(limit, before + sent, other);
  }

  lemma PassKeepsPromise(limit: Option<nat>, before: seq<Item>, events: seq<Event>, act: Event -> Act, closing: SpeechChunk,
                         whole: seq<Item>, listening: bool)
    requires events != [] && Owes(limit, before, Output(events, act, closing), whole)
    requires act(events[0]).Emit? ==> (listening <==> Fits(limit, |before + Sent(act(events[0]))|))
    ensures var after := Deliver(limit, before + Sent(act(events[0])));
            match PassOf(act(events[0]), listening)
            case GoOn => Owes(limit, after, Output(events[1..], act, closing), whole)
            case BreakOff => Owes(limit, after, [Ok(closing)], whole)
            case SentFinal => Owes(limit, after, [], whole)
  {
    var sent, rest := Sent(act(events[0])), Output(events[1..], act, closing);
    match act(events[0])
    case Emit(chunk) =>
      var later := if chunk.isFinal then [] else rest;
      if listening {
        OwesAfter(limit, before, sent, later, whole);
      } else {
        OwesNothing(limit, before, sent, later, [Ok(closing)], whole);
      }
    case Skip =>
      assert [] + rest == rest;
      OwesAfter(limit, before, [], rest, whole);
    case Finish =>
      assert [] + Last(closing) == Last(closing);
      OwesAfter(limit, before, [], [Ok(closing)], whole);
    case Fail(e) =>
      assert Output(events, act, closing) == sent + [Ok(closing)];
      OwesAfter(limit, before, sent, [Ok(closing)], whole);
  }

  method Downlink(cfg: Config, events: seq<Event>, out: Sender<Item>)
    requires out.Valid()
    modifies out
    ensures out.Valid()
    ensures out.delivered
         == Deliver(out.limit, old(out.delivered) + Output(events, ActsFor(cfg), FinalChunk(cfg.requestId)))
  {
    ghost var act, closing := ActsFor(cfg), FinalChunk(cfg.requestId);
    ghost var whole := out.delivered + Output(events, act, closing);
    var i, sentFinal, reading := 0, false, true;
    while reading && i < |events|
      invariant i <= |events| && out.Valid()
      invariant reading ==> !sentFinal && Owes(out.limit, out.delivered, Output(events[i..], act, closing), whole)
      invariant !reading && !sentFinal ==> Owes(out.limit, out.delivered, [Ok(closing)], whole)
      invariant sentFinal ==> Owes(out.limit, out.delivered, [], whole)
      decreases if reading then |events| - i else -1
    {
      assert events[i..][1..] == events[i + 1..];
      ghost var before := out.delivered;
      var next := Decide(cfg, events[i]);
      var pass, listening := Pump(next, out);
      PassKeepsPromise(out.limit, before, events[i..], act, closing, whole, listening);
      reading := pass == GoOn;
      sentFinal := pass == SentFinal;
      i := i + 1;
    }
    if !sentFinal {
      var _ := out.Send(Ok(FinalChunk(cfg.requestId)));
    } else {
      assert out.delivered + [] == out.delivered;
    }
  }

  // ---- What the output promises --------------------------------------------

  function Errors(items: seq<Item>): nat {
    if items == [] then 0 else (if items[0].Err? then 1 else 0) + Errors(items[1..])
  }

  function Finals(items: seq<Item>): nat {
    if items == [] then 0 else (if items[0].Ok? && items[0].value.isFinal then 1 else 0) + Finals(items[1..])
  }

  lemma LastAlone(closing: SpeechChunk)
    ensures Finals(Last(closing)) == (if closing.isFinal then 1 else 0) && Errors(Last(closing)) == 0
    ensures Audio(Last(closing)) == closing.audio
  {
    assert Last(closing)[1..] == [];
    assert closing.audio + [] == closing.audio;
  }

  // Chunks that are not final, at most one error, and exactly one final chunk,
  // which is last; the error, if any, comes right before it.
  lemma {:induction false} TerminalChunk(events: seq<Event>, act: Event -> Act, closing: SpeechChunk)
    requires closing.isFinal
    ensures var output := Output(events, act, closing); var n := |output|;
            && n > 0 && output[n - 1].Ok? && output[n - 1].value.isFinal
            && Finals(output) == 1 && Errors(output) <= 1
            && (Errors(output) == 1 ==> n > 1 && output[n - 2].Err? && output[n - 1] == Ok(closing))
  {
    if events != [] {
      var output, rest := Output(events, act, closing), Output(events[1..], act, closing);
      TerminalChunk(events[1..], act, closing);
      match act(events[0])
      case Emit(chunk) =>
        assert output[1..] == if chunk.isFinal then [] else rest;
      case Skip =>
      case Finish => assert output[1..] == [];
      case Fail(e) =>
        LastAlone(closing);
        assert output[1..] == Last(closing);
    } else {
      assert Last(closing)[1..] == [];
    }
  }

  // Reading goes on after this.
  predicate GoesOn(act: Act) {
    act.Skip? || (act.Emit? && !act.chunk.isFinal)
  }

  // The chunks that some events call for, in order.
  function Emitted(events: seq<Event>, act: Event -> Act): seq<Item> {
    if events == [] then []
    else Emitted(events[..|events| - 1], act) + (match act(events[|events| - 1]) case Emit(c) => [Ok(c)] case _ => [])
  }

  // The output is one chunk for each event that calls for one, in order, up to the
  // first event that ends the reading; then what that event calls for, and the
  // closing chunk unless the event was a final frame.
  lemma {:induction false} OutputInOrder(events: seq<Event>, act: Event -> Act, closing: SpeechChunk, p: nat)
    requires p <= |events| && forall q :: 0 <= q < p ==> GoesOn(act(events[q]))
    ensures Output(events, act, closing) == Emitted(events[..p], act) + Output(events[p..], act, closing)
    decreases p
  {
    if p > 0 {
      OutputInOrder(events, act, closing, p - 1);
      OneMoreEmitted(events, act, closing, p - 1);
    } else {
      assert events[..0] == [] && events[0..] == events;
      assert [] + Output(events, act, closing) == Output(events, act, closing);
    }
  }

  lemma OneMoreEmitted(events: seq<Event>, act: Event -> Act, closing: SpeechChunk, n: nat)
    requires n < |events| && GoesOn(act(events[n]))
    ensures Emitted(events[..n], act) + Output(events[n..], act, closing)
         == Emitted(events[..n + 1], act) + Output(events[n + 1..], act, closing)
  {
    var rest := Output(events[n + 1..], act, closing);
    assert events[n..][1..] == events[n + 1..] && events[..n + 1][..n] == events[..n];
    if act(events[n]).Emit? {
      Regroup(Emitted(events[..n], act), [Ok(act(events[n]).chunk)], rest);
    } else {
      assert Emitted(events[..n], act) + [] == Emitted(events[..n], act);
    }
  }

  // What the event that ends the reading calls for.
  lemma OutputAtTheEnd(events: seq<Event>, act: Event -> Act, closing: SpeechChunk)
    requires events == [] || !GoesOn(act(events[0]))
    ensures Output(events, act, closing)
         == if events == [] then [Ok(closing)]
            else match act(events[0])
                 case Emit(c) => [Ok(c)]
                 case Fail(e) => [Err(e), Ok(closing)]
                 case _ => [Ok(closing)]
  {
  }

  // Every chunk carries the request it answers, and the last one is final.
  lemma {:induction false} ChunksAnswerTheRequest(cfg: Config, events: seq<Event>, i: nat)
    requires i < |Output(events, ActsFor(cfg), FinalChunk(cfg.requestId))|
    ensures var output := Output(events, ActsFor(cfg), FinalChunk(cfg.requestId));
            && (output[i].Ok? ==> output[i].value.requestId == cfg.requestId)
            && (i == |output| - 1 ==> output[i].Ok? && output[i].value.isFinal)
  {
    if events != [] {
      var act := ActsFor(cfg)(events[0]);
      if act.Skip? {
        ChunksAnswerTheRequest(cfg, events[1..], i);
      } else if act.Emit? && !act.chunk.isFinal && i > 0 {
        ChunksAnswerTheRequest(cfg, events[1..], i - 1);
      } else if act.Emit? && !act.chunk.isFinal {
        TerminalChunk(events[1..], ActsFor(cfg), FinalChunk(cfg.requestId));
      }
    }
  }

  // The decoded audio of the frames up to the event that ends the reading.
  function Decoded(cfg: Config, events: seq<Event>): seq<byte> {
    if events == [] then []
    else
      match events[0]
      case Text(Ok(frame)) =>
        (match AudioOf(cfg, frame)
         case Err(_) => []
         case Ok(audio) => audio + (if frame.isFinal == Some(true) then [] else Decoded(cfg, events[1..])))
      case Ignored => Decoded(cfg, events[1..])
      case _ => []
  }

  function Audio(items: seq<Item>): seq<byte> {
    if items == [] then [] else (if items[0].Ok? then items[0].value.audio else []) + Audio(items[1..])
  }

  // No audio is lost, repeated or reordered on its way to the caller, whichever
  // frames are passed over as silent.
  lemma {:induction false} AudioIsKept(cfg: Config, events: seq<Event>)
    ensures Audio(Output(events, ActsFor(cfg), FinalChunk(cfg.requestId))) == Decoded(cfg, events)
  {
    var act, closing := ActsFor(cfg), FinalChunk(cfg.requestId);
    assert Last(closing)[1..] == [];
    if events != [] {
      var output, rest := Output(events, act, closing), Output(events[1..], act, closing);
      AudioIsKept(cfg, events[1..]);
      match act(events[0])
      case Emit(chunk) => assert output[1..] == if chunk.isFinal then [] else rest;
      case Skip => assert [] + Decoded(cfg, events[1..]) == Decoded(cfg, events[1..]);
      case Finish =>
      case Fail(e) =>
        LastAlone(closing);
        assert output[1..] == Last(closing);
    }
  }
}
