// What the two buffering speech-to-text downlinks have in common: the chunks,
// the socket events, and the output a run of events stands for.
module Transcripts {
  import opened Wrappers
  import opened Channels

  datatype WordTiming = WordTiming(text: string, tsStartMs: u32, tsEndMs: u32, confidence: Option<real>)

  datatype TranscriptChunk = TranscriptChunk(
    requestId: string, isFinal: bool, text: string, tsStartMs: u32, tsEndMs: u32,
    speakerId: Option<string>, words: seq<WordTiming>)

  datatype WsError = DecodeError | Closed(code: nat) | ReceiveError

  // One outcome of polling the socket; past the last one the stream has ended.
  datatype Event<+Envelope> = Text(parsed: Result<Envelope, ()>) | Ignored | Close(code: nat) | Broken

  type Item = Result<TranscriptChunk, WsError>

  // What a downlink makes of an event: buffer a chunk, go on, stop reading,
  // report an error and stop reading, or report an error and give up.
  datatype Act = Keep(chunk: TranscriptChunk) | Skip | Finish | Report(err: WsError) | Abort(err: WsError)

  // The closing codes both providers' loops treat as an ordinary end.
  predicate NormalClose(code: nat) {
    code == 1000 || code == 1005 || code == 1006
  }

  function Kept<E>(events: seq<Event<E>>, act: Event<E> -> Act): seq<TranscriptChunk> {
    if events == [] then []
    else
      match act(events[0])
      case Keep(chunk) => [chunk] + Kept(events[1..], act)
      case Skip => Kept(events[1..], act)
      case _ => []
  }

  // What ended the reading.
  function Stopper<E>(events: seq<Event<E>>, act: Event<E> -> Act): Act {
    if events == [] then Finish
    else
      match act(events[0])
      case Keep(_) => Stopper(events[1..], act)
      case Skip => Stopper(events[1..], act)
      case stop => stop
  }

  predicate HasFinal(chunks: seq<TranscriptChunk>) {
    exists i :: 0 <= i < |chunks| && chunks[i].isFinal
  }

  function Synthetic(requestId: string): TranscriptChunk {
    TranscriptChunk(requestId, true, "", 0, 0, None, [])
  }

  // The buffer as it is flushed.
  function Promoted(requestId: string, chunks: seq<TranscriptChunk>): seq<TranscriptChunk> {
    if HasFinal(chunks) then chunks
    else if chunks == [] then [Synthetic(requestId)]
    else chunks[|chunks| - 1 := chunks[|chunks| - 1].(isFinal := true)]
  }

  function Oks(chunks: seq<TranscriptChunk>): seq<Item> {
    seq(|chunks|, i requires 0 <= i < |chunks| => Ok(chunks[i]))
  }

  function Output<E>(requestId: string, events: seq<Event<E>>, act: Event<E> -> Act): seq<Item> {
    match Stopper(events, act)
    case Abort(e) => [Err(e)]
    case Report(e) => [Err(e)] + Oks(Promoted(requestId, Kept(events, act)))
    case _ => Oks(Promoted(requestId, Kept(events, act)))
  }

  // Send the buffer until it is empty or nobody listens.
  method SendAll(chunks: seq<TranscriptChunk>, out: Sender<Item>)
    requires out.Valid()
    modifies out
    ensures out.Valid() && out.delivered == Deliver(out.limit, old(out.delivered) + Oks(chunks))
  {
    ghost var pre := out.delivered;
    OksFrom(chunks, 0);
    assert pre + [] == pre;
    for i := 0 to |chunks|
      invariant out.Valid() && out.delivered == pre + Oks(chunks)[..i]
    {
      OksFrom(chunks, i);
      ghost var sent := out.delivered;
      var listening := out.Send(Ok(chunks[i]));
      assert sent + [Ok(chunks[i])] == pre + Oks(chunks)[..i + 1];
      if !listening {
        assert pre + Oks(chunks) == (pre + Oks(chunks)[..i + 1]) + Oks(chunks)[i + 1..];
        DeliverIgnoresRest(out.limit, pre + Oks(chunks)[..i + 1], Oks(chunks)[i + 1..]);
        return;
      }
    }
    assert Oks(chunks)[..|chunks|] == Oks(chunks);
  }

  lemma OksFrom(chunks: seq<TranscriptChunk>, i: nat)
    requires i <= |chunks|
    ensures i < |chunks| ==> Oks(chunks)[..i + 1] == Oks(chunks)[..i] + [Ok(chunks[i])]
    ensures Oks(chunks)[..0] == []
  {
  }

  // The two ways the flushed buffer can follow what was sent before it.
  lemma FlushAfter(limit: Option<nat>, pre: seq<Item>, err: WsError, rest: seq<Item>)
    ensures Deliver(limit, Deliver(limit, pre + [Err(err)]) + rest) == Deliver(limit, pre + ([Err(err)] + rest))
  {
    DeliverInTwo(limit, pre + [Err(err)], rest);
    assert (pre + [Err(err)]) + rest == pre + ([Err(err)] + rest);
  }

  // ---- What the output promises --------------------------------------------

  function Finals(chunks: seq<TranscriptChunk>): nat {
    if chunks == [] then 0
    else Finals(chunks[..|chunks| - 1]) + (if chunks[|chunks| - 1].isFinal then 1 else 0)
  }

  lemma HasFinalSnoc(front: seq<TranscriptChunk>, c: TranscriptChunk)
    ensures HasFinal(front + [c]) <==> HasFinal(front) || c.isFinal
  {
    var all := front + [c];
    assert all[|front|] == c;
    assert forall i :: 0 <= i < |front| ==> all[i] == front[i];
  }

  lemma {:induction false} FinalsCount(chunks: seq<TranscriptChunk>)
    ensures Finals(chunks) > 0 <==> HasFinal(chunks)
  {
    if chunks != [] {
      var n := |chunks| - 1;
      FinalsCount(chunks[..n]);
      assert chunks == chunks[..n] + [chunks[n]];
      HasFinalSnoc(chunks[..n], chunks[n]);
    }
  }

  // Everything of a chunk but its final mark.
  function Body(c: TranscriptChunk): TranscriptChunk {
    c.(isFinal := false)
  }

  // Flushing keeps the buffered chunks, in order, but for one final mark: there
  // are as many finals as the provider gave, or one when it gave none, and that
  // one is last and alone.
  lemma TerminalChunk(requestId: string, kept: seq<TranscriptChunk>)
    ensures var sent := Promoted(requestId, kept);
            && sent != []
            && Finals(sent) == (if Finals(kept) > 0 then Finals(kept) else 1)
            && (Finals(kept) == 0 ==>
                  sent[|sent| - 1].isFinal && forall i :: 0 <= i < |sent| - 1 ==> !sent[i].isFinal)
            && (kept == [] ==> sent == [TranscriptChunk(requestId, true, "", 0, 0, None, [])])
            && (kept != [] ==> |sent| == |kept| && forall i :: 0 <= i < |kept| ==> Body(sent[i]) == Body(kept[i]))
  {
    FinalsCount(kept);
    var sent := Promoted(requestId, kept);
    if Finals(kept) == 0 {
      var n := |sent| - 1;
      assert forall i :: 0 <= i < n ==> !sent[..n][i].isFinal;
      FinalsCount(sent[..n]);
    }
  }

  // The flushed buffer has exactly one final chunk exactly when the provider
  // marked at most one.
  lemma OneFinalExactly(requestId: string, kept: seq<TranscriptChunk>)
    ensures Finals(Promoted(requestId, kept)) == 1 <==> Finals(kept) <= 1
  {
    TerminalChunk(requestId, kept);
  }

  lemma TwoFinalEvents<E>(requestId: string, x: Event<E>, y: Event<E>, act: Event<E> -> Act, a: TranscriptChunk, b: TranscriptChunk)
    requires act(x) == Keep(a) && act(y) == Keep(b) && a.isFinal
    ensures Output(requestId, [x, y], act) == [Ok(a), Ok(b)]
  {
    assert [x, y][1..] == [y] && [y][1..] == [];
    assert Kept([y], act) == [b] + [] && Stopper([y], act) == Finish;
    assert Kept([x, y], act) == [a] + Kept([y], act) && Stopper([x, y], act) == Finish;
    assert Kept([x, y], act) == [a, b] && [a, b][0].isFinal;
    assert Oks([a, b]) == [Ok(a), Ok(b)];
  }

  // Where the kept chunks come from.
  function Positions<E>(events: seq<Event<E>>, act: Event<E> -> Act, from: nat): seq<nat> {
    if events == [] then []
    else
      match act(events[0])
      case Keep(_) => [from] + Positions(events[1..], act, from + 1)
      case Skip => Positions(events[1..], act, from + 1)
      case _ => []
  }

  predicate Reads(act: Act) {
    act.Keep? || act.Skip?
  }

  predicate Increasing(s: seq<nat>) {
    forall i, j :: 0 <= i < j < |s| ==> s[i] < s[j]
  }

  predicate Places<E>(events: seq<Event<E>>, act: Event<E> -> Act, from: nat, at: seq<nat>, kept: seq<TranscriptChunk>) {
    && |at| == |kept|
    && forall i :: 0 <= i < |at| ==> from <= at[i] < from + |events| && act(events[at[i] - from]) == Keep(kept[i])
  }

  lemma PlacesShift<E>(events: seq<Event<E>>, act: Event<E> -> Act, from: nat, at: seq<nat>, kept: seq<TranscriptChunk>)
    requires events != [] && Places(events[1..], act, from + 1, at, kept)
    ensures Places(events, act, from, at, kept)
  {
    forall i | 0 <= i < |at| ensures from <= at[i] < from + |events| && act(events[at[i] - from]) == Keep(kept[i]) {
      assert events[1..][at[i] - (from + 1)] == events[at[i] - from];
    }
  }

  // The kept chunks come from events ...
  lemma {:induction false} KeptInPlace<E>(events: seq<Event<E>>, act: Event<E> -> Act, from: nat)
    ensures Places(events, act, from, Positions(events, act, from), Kept(events, act))
    decreases |events|
  {
    if events != [] && Reads(act(events[0])) {
      var rest := events[1..];
      var at, kept := Positions(rest, act, from + 1), Kept(rest, act);
      KeptInPlace(rest, act, from + 1);
      PlacesShift(events, act, from, at, kept);
      if act(events[0]).Keep? {
        PlacesCons(events, act, from, at, kept, act(events[0]).chunk);
      }
    }
  }

  lemma PlacesCons<E>(events: seq<Event<E>>, act: Event<E> -> Act, from: nat, at: seq<nat>, kept: seq<TranscriptChunk>,
                      chunk: TranscriptChunk)
    requires events != [] && act(events[0]) == Keep(chunk) && Places(events, act, from, at, kept)
    ensures Places(events, act, from, [from] + at, [chunk] + kept)
  {
  }

  // ... further and further on ...
  lemma {:induction false} KeptInOrder<E>(events: seq<Event<E>>, act: Event<E> -> Act, from: nat)
    ensures var at := Positions(events, act, from);
            Increasing(at) && forall i :: 0 <= i < |at| ==> from <= at[i]
    decreases |events|
  {
    if events != [] && Reads(act(events[0])) {
      KeptInOrder(events[1..], act, from + 1);
    }
  }

  predicate ReadsUpTo<E>(events: seq<Event<E>>, act: Event<E> -> Act, p: nat) {
    p <= |events| && forall q :: 0 <= q < p ==> Reads(act(events[q]))
  }

  // ... and none that was read is missed.
  lemma {:induction false} NoneMissed<E>(events: seq<Event<E>>, act: Event<E> -> Act, from: nat, p: nat)
    requires p < |events| && act(events[p]).Keep? && ReadsUpTo(events, act, p)
    ensures (from + p) in Positions(events, act, from)
    decreases p
  {
    if p > 0 {
      assert Reads(act(events[0]));
      assert forall q :: 0 <= q < p - 1 ==> events[1..][q] == events[q + 1];
      NoneMissed(events[1..], act, from + 1, p - 1);
    }
  }

  // The reading ends at the first event that ends it, or where the events do.
  lemma {:induction false} FirstToStop<E>(events: seq<Event<E>>, act: Event<E> -> Act, p: nat)
    requires ReadsUpTo(events, act, p) && (p < |events| ==> !Reads(act(events[p])))
    ensures Stopper(events, act) == if p < |events| then act(events[p]) else Finish
    decreases p
  {
    if p > 0 {
      assert Reads(act(events[0]));
      assert forall q :: 0 <= q < |events| - 1 ==> events[1..][q] == events[q + 1];
      FirstToStop(events[1..], act, p - 1);
    }
  }

  function Errors(items: seq<Item>): seq<WsError> {
    if items == [] then []
    else (match items[0] case Err(e) => [e] case Ok(_) => []) + Errors(items[1..])
  }

  lemma {:induction false} OksHaveNoErrors(chunks: seq<TranscriptChunk>)
    ensures Errors(Oks(chunks)) == []
  {
    if chunks != [] {
      assert Oks(chunks)[1..] == Oks(chunks[1..]);
      OksHaveNoErrors(chunks[1..]);
    }
  }

  // At most one error is sent, before everything else.  After an abort it is
  // all that is sent: what was buffered is lost.
  lemma ErrorsComeFirst<E>(requestId: string, events: seq<Event<E>>, act: Event<E> -> Act)
    ensures var output, stop := Output(requestId, events, act), Stopper(events, act);
            && Errors(output) == (if stop.Report? || stop.Abort? then [stop.err] else [])
            && (stop.Report? || stop.Abort? ==> output[0] == Err(stop.err))
            && (stop.Abort? <==> forall i :: 0 <= i < |output| ==> output[i].Err?)
  {
    var chunks := Promoted(requestId, Kept(events, act));
    OksHaveNoErrors(chunks);
    TerminalChunk(requestId, Kept(events, act));
    var output := Output(requestId, events, act);
    match Stopper(events, act) {
      case Report(e) =>
        assert output[1..] == Oks(chunks);
        assert output[1].Ok?;
      case Abort(_) =>
        assert output[1..] == [];
      case _ =>
        assert output[0].Ok?;
    }
  }
}
