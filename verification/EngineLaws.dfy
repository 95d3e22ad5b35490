// What the engine's turns send, free and count, in terms of the flags and the
// queue they start from; see EngineProtocol for whole runs.
module EngineLaws {
  import opened Wrappers
  import opened RequestQueues
  import opened RemoteEngine
  import opened EngineProtocol

  // ---- The dispatch loop ---------------------------------------------------

  function Pops<R>(n: nat): seq<Op<R>> {
    seq(n, _ => Pop)
  }

  lemma PopsCons<R>(q: QueueState<R>, n: nat)
    requires q.entries != []
    ensures Served(q, Pops(n + 1)) == [Top(q)] + Served(Popped(q), Pops(n))
    ensures Final(q, Pops(n + 1)) == Final(Popped(q), Pops(n))
  {
    assert Pops<R>(n + 1)[1..] == Pops(n);
  }

  function Idle(flags: seq<bool>): nat {
    if flags == [] then 0 else Idle(flags[..|flags| - 1]) + (if flags[|flags| - 1] then 1 else 0)
  }

  // The i-th request goes to the i-th idle entry, and these entries become busy.
  ghost predicate TakesFirstIdle<R>(before: seq<bool>, after: seq<bool>, sent: seq<Tell<R>>) {
    && |after| == |before|
    && (forall i :: 0 <= i < |sent| ==> IsIdle(before, sent[i].worker, i))
    && forall w :: 0 <= w < |before| ==> (after[w] <==> before[w] && Idle(before[..w]) >= |sent|)
  }

  // Entry w is idle, with i idle ones before it.
  predicate IsIdle(flags: seq<bool>, w: nat, i: nat) {
    w < |flags| && flags[w] && Idle(flags[..w]) == i
  }

  lemma {:induction false} NoneIdle(flags: seq<bool>)
    requires forall j :: 0 <= j < |flags| ==> !flags[j]
    ensures Idle(flags) == 0
  {
    if flags != [] {
      NoneIdle(flags[..|flags| - 1]);
    }
  }

  lemma {:induction false} IdleWithout(flags: seq<bool>, f: nat, w: nat)
    requires f < |flags| && flags[f] && w <= |flags|
    ensures Idle(flags[..w]) == Idle(flags[f := false][..w]) + (if w > f then 1 else 0)
  {
    if w > 0 {
      IdleWithout(flags, f, w - 1);
      assert flags[..w][..w - 1] == flags[..w - 1];
      assert flags[f := false][..w][..w - 1] == flags[f := false][..w - 1];
    }
  }

  lemma IdleBeforeFirst(flags: seq<bool>, w: nat)
    requires w < |flags| && w <= First(flags, true)
    ensures Idle(flags[..w]) == 0
  {
    NoneIdle(flags[..w]);
  }

  lemma TakesNone<R>(idle: seq<bool>)
    ensures TakesFirstIdle<R>(idle, idle, [])
  {
  }

  lemma LaterIdle(before: seq<bool>, f: nat, w: nat, i: nat)
    requires f == First(before, true) < |before| && IsIdle(before[f := false], w, i)
    ensures IsIdle(before, w, i + 1)
  {
    IdleWithout(before, f, w);
  }

  lemma StaysIdle(before: seq<bool>, f: nat, w: nat, n: nat)
    requires f == First(before, true) < |before| && w < |before|
    ensures (before[f := false][w] && Idle(before[f := false][..w]) >= n) <==> (before[w] && Idle(before[..w]) >= n + 1)
  {
    IdleWithout(before, f, w);
    if w <= f {
      IdleBeforeFirst(before, w);
    }
  }

  lemma TakesOneMore<R>(before: seq<bool>, after: seq<bool>, t: Tell<R>, rest: seq<Tell<R>>)
    requires t.worker == First(before, true) < |before|
    requires TakesFirstIdle(before[t.worker := false], after, rest)
    ensures TakesFirstIdle(before, after, [t] + rest)
  {
    var mid, sent := before[t.worker := false], [t] + rest;
    IdleBeforeFirst(before, t.worker);
    forall i | 0 <= i < |sent| ensures IsIdle(before, sent[i].worker, i) {
      if i > 0 {
        assert IsIdle(mid, rest[i - 1].worker, i - 1);
        LaterIdle(before, t.worker, rest[i - 1].worker, i - 1);
      }
    }
    forall w | 0 <= w < |before| ensures after[w] <==> before[w] && Idle(before[..w]) >= |sent| {
      StaysIdle(before, t.worker, w, |rest|);
    }
  }

  ghost predicate CountsMove(before: Metrics, after: Metrics, n: nat) {
    && after.queued == (if before.queued < n then 0 else before.queued - n)
    && after.inFlight == before.inFlight + n
    && after.completed == before.completed && after.rejected == before.rejected
  }

  function Smaller(a: int, b: int): int {
    if a < b then a else b
  }

  function Requests<R>(sent: seq<Tell<R>>): seq<Request<R>> {
    seq(|sent|, i requires 0 <= i < |sent| => sent[i].req)
  }

  // What a dispatch loop does: as many requests leave as there are both requests
  // and idle entries; they are what that many pops would serve, in that order, and
  // go to the first idle entries in index order.
  ghost predicate Sends<R>(e: EngineState<R>, final: EngineState<R>, sent: seq<Tell<R>>) {
    && |sent| == Smaller(|e.queue.entries|, Idle(e.idle))
    && LeaveInOrder(e.queue, final.queue, sent)
    && TakesFirstIdle(e.idle, final.idle, sent)
    && CountsMove(e.metrics, final.metrics, |sent|)
  }

  ghost predicate LeaveInOrder<R>(before: QueueState<R>, after: QueueState<R>, sent: seq<Tell<R>>) {
    after == Final(before, Pops(|sent|)) && Requests(sent) == Served(before, Pops(|sent|))
  }

  lemma NothingSent<R>(e: EngineState<R>)
    requires !CanDispatch(e)
    ensures Smaller(|e.queue.entries|, Idle(e.idle)) == 0
    ensures TakesFirstIdle<R>(e.idle, e.idle, []) && Requests<R>([]) == []
  {
    if First(e.idle, true) == |e.idle| {
      NoneIdle(e.idle);
    }
    TakesNone<R>(e.idle);
  }

  lemma OneMoreLeaves<R>(q: QueueState<R>, after: QueueState<R>, t: Tell<R>, rest: seq<Tell<R>>)
    requires q.entries != [] && t.req == Top(q) && LeaveInOrder(Popped(q), after, rest)
    ensures LeaveInOrder(q, after, [t] + rest)
  {
    PopsCons(q, |rest|);
    assert Requests([t] + rest) == [t.req] + Requests(rest);
  }

  lemma OneMoreIdle(before: seq<bool>, f: nat)
    requires f == First(before, true) < |before|
    ensures Idle(before) == Idle(before[f := false]) + 1
  {
    IdleWithout(before, f, |before|);
    assert before[..|before|] == before && before[f := false][..|before|] == before[f := false];
  }

  lemma OneMoreCounted(before: Metrics, after: Metrics, n: nat)
    requires CountsMove(before.(queued := SaturatingDec(before.queued), inFlight := before.inFlight + 1), after, n)
    ensures CountsMove(before, after, n + 1)
  {
  }

  lemma OneMoreSent<R>(e: EngineState<R>, final: EngineState<R>, sent: seq<Tell<R>>)
    requires CanDispatch(e) && Sends(DispatchedOne(e), final, sent)
    ensures Sends(e, final, [NextTell(e)] + sent)
  {
    OneMoreIdle(e.idle, NextTell(e).worker);
    OneMoreLeaves(e.queue, final.queue, NextTell(e), sent);
    TakesOneMore(e.idle, final.idle, NextTell(e), sent);
    OneMoreCounted(e.metrics, final.metrics, |sent|);
    PopShortens(e.queue);
  }

  lemma PopShortens<R>(q: QueueState<R>)
    requires q.entries != []
    ensures |Popped(q).entries| == |q.entries| - 1
  {
  }

  lemma {:induction false} DispatchSends<R>(e: EngineState<R>)
    ensures Sends(e, Dispatched(e).0, Dispatched(e).1)
    decreases |e.queue.entries|
  {
    if CanDispatch(e) {
      DispatchSends(DispatchedOne(e));
      OneMoreSent(e, Dispatched(DispatchedOne(e)).0, Dispatched(DispatchedOne(e)).1);
    } else {
      NothingSent(e);
    }
  }

  // ---- Before the loop -----------------------------------------------------

  // An idle message frees the first busy entry and counts one completion.
  lemma FreesFirstBusy<R>(e: EngineState<R>, i: nat)
    requires i < |e.idle| && !e.idle[i] && forall j :: 0 <= j < i ==> e.idle[j]
    ensures var f := Freed(e);
            && f.queue == e.queue && f.idle == e.idle[i := true]
            && f.metrics.completed == e.metrics.completed + 1
            && (e.metrics.inFlight > 0 ==> f.metrics.inFlight == e.metrics.inFlight - 1)
            && f.metrics.queued == e.metrics.queued && f.metrics.rejected == e.metrics.rejected
  {
    assert First(e.idle, false) == i;
  }

  lemma FreesNobody<R>(e: EngineState<R>)
    requires forall j :: 0 <= j < |e.idle| ==> e.idle[j]
    ensures Freed(e) == e
  {
    assert First(e.idle, false) == |e.idle|;
  }

  // A request counts as rejected exactly when `capacity` requests are waiting.
  lemma RejectsExactlyAtCapacity<R>(e: EngineState<R>, p: Priority, body: R)
    requires WellFormed(e.queue)
    ensures var a := Enqueued(e, p, body);
            && a.idle == e.idle
            && a.metrics.inFlight == e.metrics.inFlight && a.metrics.completed == e.metrics.completed
            && if |e.queue.entries| == e.queue.capacity
               then a.queue == e.queue && a.metrics.rejected == e.metrics.rejected + 1 && a.metrics.queued == e.metrics.queued
               else |a.queue.entries| == |e.queue.entries| + 1
                    && a.metrics.rejected == e.metrics.rejected && a.metrics.queued == e.metrics.queued + 1
  {
  }

  // ---- Arrivals over whole runs --------------------------------------------

  function Arrivals<R>(labels: seq<Label<R>>): seq<(Priority, R)> {
    if labels == [] then []
    else (if labels[0].Arrive? then [(labels[0].priority, labels[0].body)] else []) + Arrivals(labels[1..])
  }

  // What the engine has yet to look at.
  function Adds<R>(inbox: seq<EngineMsg<R>>): seq<(Priority, R)> {
    if inbox == [] then []
    else (if inbox[0].Add? then [(inbox[0].priority, inbox[0].body)] else []) + Adds(inbox[1..])
  }

  function Asked<R>(admitted: seq<Request<R>>): seq<(Priority, R)> {
    seq(|admitted|, i requires 0 <= i < |admitted| => (admitted[i].priority, admitted[i].body))
  }

  lemma {:induction false} AddsSnoc<R>(inbox: seq<EngineMsg<R>>, m: EngineMsg<R>)
    ensures Adds(inbox + [m]) == Adds(inbox) + if m.Add? then [(m.priority, m.body)] else []
  {
    if inbox == [] {
      assert (inbox + [m])[1..] == [];
    } else {
      assert (inbox + [m])[1..] == inbox[1..] + [m];
      AddsSnoc(inbox[1..], m);
      Regroup(if inbox[0].Add? then [(inbox[0].priority, inbox[0].body)] else [], Adds(inbox[1..]),
              if m.Add? then [(m.priority, m.body)] else []);
    }
  }

  ghost function Answered<R>(s: System<R>): nat {
    |Adds(s.inbox)| + |s.admitted| + s.engine.metrics.rejected
  }

  ghost function Line<R>(s: System<R>): seq<(Priority, R)> {
    Asked(s.admitted) + Adds(s.inbox)
  }

  // The dispatch loop rejects nobody.
  lemma {:induction false} DispatchRejectsNone<R>(e: EngineState<R>)
    ensures Dispatched(e).0.metrics.rejected == e.metrics.rejected
    decreases |e.queue.entries|
  {
    if CanDispatch(e) {
      DispatchRejectsNone(DispatchedOne(e));
    }
  }

  lemma AskedAppend<R>(a: seq<Request<R>>, b: seq<Request<R>>)
    ensures Asked(a + b) == Asked(a) + Asked(b)
  {
  }

  // One message is taken from the inbox: it is admitted or rejected if it is a request.
  lemma AbsorbedAnswers<R>(e: EngineState<R>, inbox: seq<EngineMsg<R>>)
    requires inbox != []
    ensures var newest, more := NewlyAdmitted(e, inbox[0]), Absorbed(e, inbox[0]).metrics.rejected - e.metrics.rejected;
            && more >= 0 && |Adds(inbox)| == |Adds(inbox[1..])| + |newest| + more
            && (more == 0 ==> Adds(inbox) == Asked(newest) + Adds(inbox[1..]))
  {
    if inbox[0].Add? && !Full(e.queue) {
      assert Asked(NewlyAdmitted(e, inbox[0])) == [(inbox[0].priority, inbox[0].body)];
    } else {
      assert Asked<R>([]) == [];
    }
  }

  lemma TurnAnswers<R>(s: System<R>)
    requires s.inbox != []
    ensures var s' := Step(s, EngineTurn);
            && Answered(s') == Answered(s)
            && s'.engine.metrics.rejected >= s.engine.metrics.rejected
            && (s'.engine.metrics.rejected == s.engine.metrics.rejected ==> Line(s') == Line(s))
  {
    var newest := NewlyAdmitted(s.engine, s.inbox[0]);
    DispatchRejectsNone(Absorbed(s.engine, s.inbox[0]));
    AbsorbedAnswers(s.engine, s.inbox);
    AskedAppend(s.admitted, newest);
    Regroup(Asked(s.admitted), Asked(newest), Adds(s.inbox[1..]));
  }

  lemma StepAnswers<R>(s: System<R>, l: Label<R>)
    ensures var s', came := Step(s, l), Arrivals([l]);
            && Answered(s') == Answered(s) + |came|
            && s'.engine.metrics.rejected >= s.engine.metrics.rejected
            && (s'.engine.metrics.rejected == s.engine.metrics.rejected ==> Line(s') == Line(s) + came)
  {
    assert [l][1..] == [];
    match l
    case EngineTurn =>
      if s.inbox != [] {
        TurnAnswers(s);
      }
    case Arrive(p, b) =>
      AddsSnoc(s.inbox, Add(p, b));
      Regroup(Asked(s.admitted), Adds(s.inbox), [(p, b)]);
    case Forward => AddsSnoc(s.inbox, WorkerIdle);
    case Finish(_) =>
  }

  lemma {:induction false} RunAnswers<R>(s: System<R>, labels: seq<Label<R>>)
    ensures var s', came := Run(s, labels), Arrivals(labels);
            && Answered(s') == Answered(s) + |came|
            && s'.engine.metrics.rejected >= s.engine.metrics.rejected
            && (s'.engine.metrics.rejected == s.engine.metrics.rejected ==> Line(s') == Line(s) + came)
    decreases |labels|
  {
    if labels == [] {
      assert Line(s) + [] == Line(s);
    } else {
      StepAnswers(s, labels[0]);
      assert [labels[0]][1..] == [] && Arrivals(labels) == Arrivals([labels[0]]) + Arrivals(labels[1..]);
      RunAnswers(Step(s, labels[0]), labels[1..]);
      Regroup(Line(s), Arrivals([labels[0]]), Arrivals(labels[1..]));
    }
  }

  // Every request that came is admitted, counted as rejected, or still unread; and
  // while none is rejected they are admitted as they came, in that order.
  lemma ArrivalsAreAnswered<R>(capacity: nat, workers: nat, labels: seq<Label<R>>)
    ensures var s := Run(Start<R>(capacity, workers), labels);
            && |Arrivals(labels)| == |Adds(s.inbox)| + |s.admitted| + s.engine.metrics.rejected
            && (s.engine.metrics.rejected == 0 ==> Arrivals(labels) == Asked(s.admitted) + Adds(s.inbox))
  {
    var s := Start<R>(capacity, workers);
    RunAnswers(s, labels);
    assert Line(s) == [] && Line(s) + Arrivals(labels) == Arrivals(labels);
  }
}
