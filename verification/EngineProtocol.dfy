// The engine, its workers and the idle channel as one transition system.
//
// A worker that finishes puts an anonymous signal in the idle channel; a
// forwarder turns each signal into a `WorkerIdle` message in the engine's own
// mailbox, where it frees the first busy entry, whoever sent it.
module EngineProtocol {
  import opened Wrappers
  import opened RequestQueues
  import opened RemoteEngine

  datatype System<R> = System(
    engine: EngineState<R>,
    inbox: seq<EngineMsg<R>>,           // the engine's mailbox
    mailboxes: seq<seq<Request<R>>>,    // per worker; the head is the one executing
    signals: nat,                       // idle signals not yet forwarded
    admitted: seq<Request<R>>,          // history: accepted into the queue
    finished: seq<Request<R>>)          // history: completed by some worker

  datatype Label<R> =
    | Arrive(priority: Priority, body: R)
    | EngineTurn
    | Finish(worker: nat)
    | Forward

  predicate Enabled<R>(s: System<R>, l: Label<R>) {
    match l
    case Arrive(_, _) => true
    case EngineTurn => s.inbox != []
    case Finish(w) => w < |s.mailboxes| && s.mailboxes[w] != []
    case Forward => s.signals > 0
  }

  function Put<R>(mailboxes: seq<seq<Request<R>>>, t: Tell<R>): seq<seq<Request<R>>> {
    if t.worker < |mailboxes| then mailboxes[t.worker := mailboxes[t.worker] + [t.req]] else mailboxes
  }

  function PutAll<R>(mailboxes: seq<seq<Request<R>>>, sent: seq<Tell<R>>): seq<seq<Request<R>>>
    decreases |sent|
  {
    if sent == [] then mailboxes else PutAll(Put(mailboxes, sent[0]), sent[1..])
  }

  function NewlyAdmitted<R>(e: EngineState<R>, msg: EngineMsg<R>): seq<Request<R>> {
    if msg.Add? && !Full(e.queue) then [Stamped(e.queue, msg.priority, msg.body)] else []
  }

  // The part of a turn that runs before the dispatch loop.
  function Absorbed<R>(e: EngineState<R>, msg: EngineMsg<R>): EngineState<R> {
    match msg
    case Add(p, body) => Enqueued(e, p, body)
    case WorkerIdle => Freed(e)
  }

  // A label that is not enabled changes nothing.
  function Step<R>(s: System<R>, l: Label<R>): System<R> {
    if !Enabled(s, l) then s
    else
      match l
      case Arrive(p, body) => s.(inbox := s.inbox + [Add(p, body)])
      case EngineTurn =>
        var (e, sent) := Handled(s.engine, s.inbox[0]);
        s.(engine := e, inbox := s.inbox[1..], mailboxes := PutAll(s.mailboxes, sent),
           admitted := s.admitted + NewlyAdmitted(s.engine, s.inbox[0]))
      case Finish(w) =>
        s.(mailboxes := s.mailboxes[w := s.mailboxes[w][1..]], signals := s.signals + 1,
           finished := s.finished + [s.mailboxes[w][0]])
      case Forward => s.(inbox := s.inbox + [WorkerIdle], signals := s.signals - 1)
  }

  function Run<R>(s: System<R>, labels: seq<Label<R>>): System<R>
    decreases |labels|
  {
    if labels == [] then s else Run(Step(s, labels[0]), labels[1..])
  }

  function Start<R>(capacity: nat, workers: nat): System<R> {
    System(Initial(capacity, workers), [], seq(workers, _ => []), 0, [], [])
  }

  // ---- Counting ------------------------------------------------------------

  function Busy(idle: seq<bool>): nat {
    if idle == [] then 0 else (if idle[0] then 0 else 1) + Busy(idle[1..])
  }

  function Load<R>(mailboxes: seq<seq<Request<R>>>): nat {
    if mailboxes == [] then 0 else |mailboxes[0]| + Load(mailboxes[1..])
  }

  ghost function Pending<R>(mailboxes: seq<seq<Request<R>>>): multiset<Request<R>> {
    if mailboxes == [] then multiset{} else multiset(mailboxes[0]) + Pending(mailboxes[1..])
  }

  function IdleMsgs<R>(inbox: seq<EngineMsg<R>>): nat {
    if inbox == [] then 0 else (if inbox[0].WorkerIdle? then 1 else 0) + IdleMsgs(inbox[1..])
  }

  lemma {:induction false} BusyUpdate(idle: seq<bool>, i: nat, v: bool)
    requires i < |idle|
    ensures Busy(idle[i := v]) + (if idle[i] then 0 else 1) == Busy(idle) + (if v then 0 else 1)
  {
    if i == 0 {
      assert idle[0 := v][1..] == idle[1..];
    } else {
      assert idle[i := v][1..] == idle[1..][i - 1 := v];
      BusyUpdate(idle[1..], i - 1, v);
    }
  }

  lemma {:induction false} LoadUpdate<R>(m: seq<seq<Request<R>>>, i: nat, box: seq<Request<R>>)
    requires i < |m|
    ensures Load(m[i := box]) + |m[i]| == Load(m) + |box|
    ensures Pending(m[i := box]) + multiset(m[i]) == Pending(m) + multiset(box)
  {
    if i == 0 {
      assert m[0 := box][1..] == m[1..];
    } else {
      assert m[i := box][1..] == m[1..][i - 1 := box];
      LoadUpdate(m[1..], i - 1, box);
      calc {
        Pending(m[i := box]) + multiset(m[i]);
        multiset(m[0]) + (Pending(m[1..][i - 1 := box]) + multiset(m[i]));
        multiset(m[0]) + (Pending(m[1..]) + multiset(box));
        Pending(m) + multiset(box);
      }
    }
  }

  lemma {:induction false} IdleMsgsAppend<R>(inbox: seq<EngineMsg<R>>, msg: EngineMsg<R>)
    ensures IdleMsgs(inbox + [msg]) == IdleMsgs(inbox) + (if msg.WorkerIdle? then 1 else 0)
  {
    if inbox != [] {
      assert (inbox + [msg])[1..] == inbox[1..] + [msg];
      IdleMsgsAppend(inbox[1..], msg);
    }
  }

  lemma {:induction false} BusyBounds(idle: seq<bool>)
    ensures Busy(idle) <= |idle|
    ensures Busy(idle) == 0 <==> First(idle, false) == |idle|
    ensures Busy(idle) == |idle| <==> First(idle, true) == |idle|
  {
    if idle != [] {
      BusyBounds(idle[1..]);
    }
  }

  lemma {:induction false} LoadIsPendingSize<R>(m: seq<seq<Request<R>>>)
    ensures Load(m) == |Pending(m)|
    ensures Load(m) == 0 <==> forall i :: 0 <= i < |m| ==> m[i] == []
  {
    if m != [] {
      LoadIsPendingSize(m[1..]);
      assert (forall i :: 0 <= i < |m| ==> m[i] == []) <==> m[0] == [] && forall i :: 0 <= i < |m[1..]| ==> m[1..][i] == [];
    }
  }

  // ---- The invariant -------------------------------------------------------

  // The aggregate claim: flags, counter and work in progress agree in number.
  ghost predicate CountsAgree<R>(s: System<R>) {
    && |s.mailboxes| == |s.engine.idle|
    && Busy(s.engine.idle) == Load(s.mailboxes) + s.signals + IdleMsgs(s.inbox)
    && s.engine.metrics.inFlight == Busy(s.engine.idle)
    && s.engine.metrics.queued == |s.engine.queue.entries|
    && |s.admitted| == s.engine.metrics.queued + s.engine.metrics.inFlight + s.engine.metrics.completed
  }

  // Every admitted request is in exactly one place.
  ghost predicate AllAccountedFor<R>(s: System<R>) {
    && multiset(s.admitted) == multiset(s.engine.queue.entries) + Pending(s.mailboxes) + multiset(s.finished)
    && |s.admitted| == s.engine.queue.nextSeq
    && forall i :: 0 <= i < |s.admitted| ==> s.admitted[i].arrivalSeq == i
  }

  ghost predicate Saturated<R>(e: EngineState<R>) {
    e.queue.entries == [] || First(e.idle, true) == |e.idle|
  }

  ghost predicate Consistent<R>(s: System<R>) {
    && WellFormed(s.engine.queue)
    && CountsAgree(s)
    && AllAccountedFor(s)
    && (s.engine.queue.capacity == 0 ==> s.admitted == [])
  }

  ghost predicate Inv<R>(s: System<R>) {
    Consistent(s) && Saturated(s.engine)
  }

  function OneDispatch<R>(s: System<R>): System<R>
    requires CanDispatch(s.engine)
  {
    s.(engine := DispatchedOne(s.engine), mailboxes := Put(s.mailboxes, NextTell(s.engine)))
  }

  lemma OneDispatchConsistent<R>(s: System<R>)
    requires Consistent(s) && CanDispatch(s.engine)
    ensures Consistent(OneDispatch(s))
    ensures Load(OneDispatch(s).mailboxes) == Load(s.mailboxes) + 1
    ensures s.engine.metrics.queued > 0
  {
    var e, t := s.engine, NextTell(s.engine);
    BusyUpdate(e.idle, t.worker, false);
    LoadUpdate(s.mailboxes, t.worker, s.mailboxes[t.worker] + [t.req]);
    PopKeepsWellFormed(e.queue);
    WithoutMembers(e.queue.entries, Greatest(e.queue.entries));
    MoveToMailbox(multiset(e.queue.entries), multiset(Popped(e.queue).entries), t.req, Pending(s.mailboxes),
                  Pending(OneDispatch(s).mailboxes), multiset(s.mailboxes[t.worker]));
  }

  lemma Cancel<T>(a: multiset<T>, b: multiset<T>, c: multiset<T>)
    requires a + c == b + c
    ensures a == b
  {
    forall x
      ensures a[x] == b[x]
    {
      assert (a + c)[x] == (b + c)[x];
    }
  }

  // Moving r from the queue to a mailbox keeps the total.
  lemma MoveToMailbox<T>(queue: multiset<T>, queue': multiset<T>, r: T, boxes: multiset<T>, boxes': multiset<T>, box: multiset<T>)
    requires queue == queue' + multiset{r}
    requires boxes' + box == boxes + (box + multiset{r})
    ensures queue + boxes == queue' + boxes'
  {
    assert boxes' + box == (boxes + multiset{r}) + box;
    Cancel(boxes', boxes + multiset{r}, box);
  }

  lemma {:induction false} DispatchLoopConsistent<R>(s: System<R>)
    requires Consistent(s)
    ensures var (e, sent) := Dispatched(s.engine);
            var s' := s.(engine := e, mailboxes := PutAll(s.mailboxes, sent));
            && Inv(s')
            && Load(s'.mailboxes) == Load(s.mailboxes) + |sent|
            && |e.queue.entries| + |sent| == |s.engine.queue.entries|
    decreases |s.engine.queue.entries|
  {
    if CanDispatch(s.engine) {
      OneDispatchConsistent(s);
      DispatchLoopConsistent(OneDispatch(s));
      var (e, sent) := Dispatched(DispatchedOne(s.engine));
      assert ([NextTell(s.engine)] + sent)[1..] == sent;
    }
  }

  // A turn up to its dispatch loop.
  function AbsorbedIn<R>(s: System<R>): System<R>
    requires s.inbox != []
  {
    s.(engine := Absorbed(s.engine, s.inbox[0]), inbox := s.inbox[1..],
       admitted := s.admitted + NewlyAdmitted(s.engine, s.inbox[0]))
  }

  // The entry that an idle message frees always exists.
  lemma IdleConsistent<R>(s: System<R>)
    requires Inv(s) && s.inbox != [] && s.inbox[0].WorkerIdle?
    ensures First(s.engine.idle, false) < |s.engine.idle| && s.engine.metrics.inFlight > 0
    ensures Consistent(AbsorbedIn(s))
  {
    BusyBounds(s.engine.idle);
    BusyUpdate(s.engine.idle, First(s.engine.idle, false), true);
    assert s.admitted + [] == s.admitted;
  }

  lemma PushMembers<T>(a: seq<T>, x: T)
    ensures multiset(a + [x]) == multiset(a) + multiset{x}
  {
  }

  lemma AddConsistent<R>(s: System<R>)
    requires Inv(s) && s.inbox != [] && s.inbox[0].Add?
    ensures Consistent(AbsorbedIn(s))
  {
    var e, msg := s.engine, s.inbox[0];
    if Full(e.queue) {
      assert s.admitted + [] == s.admitted;
    } else {
      var x := Stamped(e.queue, msg.priority, msg.body);
      PushMembers(e.queue.entries, x);
      PushMembers(s.admitted, x);
      AddAccounted(s, x);
    }
  }

  lemma AddAccounted<R>(s: System<R>, x: Request<R>)
    requires Inv(s) && s.inbox != [] && s.inbox[0].Add? && !Full(s.engine.queue)
    requires x == Stamped(s.engine.queue, s.inbox[0].priority, s.inbox[0].body)
    ensures CountsAgree(AbsorbedIn(s)) && WellFormed(AbsorbedIn(s).engine.queue)
  {
    PushKeepsWellFormed(s.engine.queue, x.priority, x.body);
  }

  lemma AbsorbConsistent<R>(s: System<R>)
    requires Inv(s) && s.inbox != []
    ensures Consistent(AbsorbedIn(s))
    ensures s.inbox[0].WorkerIdle? ==> First(s.engine.idle, false) < |s.engine.idle| && s.engine.metrics.inFlight > 0
  {
    if s.inbox[0].WorkerIdle? {
      IdleConsistent(s);
    } else {
      AddConsistent(s);
    }
  }

  lemma StepKeepsInv<R>(s: System<R>, l: Label<R>)
    requires Inv(s)
    ensures Inv(Step(s, l))
  {
    if Enabled(s, l) {
      match l
      case Arrive(p, body) => IdleMsgsAppend(s.inbox, Add(p, body));
      case EngineTurn =>
        AbsorbConsistent(s);
        DispatchLoopConsistent(AbsorbedIn(s));
      case Finish(w) => FinishKeepsInv(s, w);
      case Forward => IdleMsgsAppend(s.inbox, WorkerIdle);
    }
  }

  lemma FinishKeepsInv<R>(s: System<R>, w: nat)
    requires Inv(s) && Enabled(s, Finish(w))
    ensures Inv(Step(s, Finish(w)))
  {
    var box := s.mailboxes[w];
    LoadUpdate(s.mailboxes, w, box[1..]);
    TakeHead(Pending(s.mailboxes), Pending(s.mailboxes[w := box[1..]]), box[0], multiset(box[1..])) by {
      assert box == [box[0]] + box[1..];
    }
    assert multiset(s.finished + [box[0]]) == multiset(s.finished) + multiset{box[0]};
  }

  lemma TakeHead<T>(before: multiset<T>, after: multiset<T>, r: T, tail: multiset<T>)
    requires after + (multiset{r} + tail) == before + tail
    ensures before == after + multiset{r}
  {
    assert before + tail == (after + multiset{r}) + tail;
    Cancel(before, after + multiset{r}, tail);
  }

  lemma {:induction false} StartIsConsistent<R>(capacity: nat, workers: nat)
    ensures Inv(Start<R>(capacity, workers))
  {
    var s := Start<R>(capacity, workers);
    AllIdle(workers);
    LoadIsPendingSize(s.mailboxes);
    assert Pending(s.mailboxes) == multiset{};
  }

  lemma {:induction false} AllIdle(n: nat)
    ensures Busy(seq(n, _ => true)) == 0
  {
    BusyBounds(seq(n, _ => true));
  }

  // Safety over all runs.
  lemma {:induction false} RunKeepsInv<R>(s: System<R>, labels: seq<Label<R>>)
    requires Inv(s)
    ensures Inv(Run(s, labels))
    decreases |labels|
  {
    if labels != [] {
      StepKeepsInv(s, labels[0]);
      RunKeepsInv(Step(s, labels[0]), labels[1..]);
    }
  }

  lemma AggregateCountsHold<R>(capacity: nat, workers: nat, labels: seq<Label<R>>)
    ensures var s := Run(Start<R>(capacity, workers), labels);
            && Busy(s.engine.idle) == s.engine.metrics.inFlight == Load(s.mailboxes) + s.signals + IdleMsgs(s.inbox)
            && |s.admitted| == |s.engine.queue.entries| + s.engine.metrics.inFlight + s.engine.metrics.completed
            && s.engine.metrics.queued == |s.engine.queue.entries| <= s.engine.queue.capacity
            && (s.engine.queue.entries == [] || forall i :: 0 <= i < |s.engine.idle| ==> !s.engine.idle[i])
  {
    StartIsConsistent<R>(capacity, workers);
    RunKeepsInv(Start(capacity, workers), labels);
  }

  // No admitted request is lost, and none is in two places or dispatched twice.
  lemma EachAdmittedInOnePlace<R>(capacity: nat, workers: nat, labels: seq<Label<R>>, r: Request<R>)
    ensures var s := Run(Start<R>(capacity, workers), labels);
            multiset(s.engine.queue.entries)[r] + Pending(s.mailboxes)[r] + multiset(s.finished)[r]
            == if r in s.admitted then 1 else 0
  {
    StartIsConsistent<R>(capacity, workers);
    RunKeepsInv(Start(capacity, workers), labels);
    var s := Run(Start<R>(capacity, workers), labels);
    forall i: int, j: int ensures Differ(s.admitted, i, j) {
    }
    OccursOnce(s.admitted, r);
  }

  lemma {:induction false} OccursOnce<R>(s: seq<Request<R>>, r: Request<R>)
    requires DistinctArrivals(s)
    ensures multiset(s)[r] == if r in s then 1 else 0
  {
    if s != [] {
      var n := |s| - 1;
      assert s == s[..n] + [s[n]];
      DistinctPrefix(s, n);
      forall i | 0 <= i < n ensures s[i] != s[n] {
        assert Differ(s, i, n);
      }
      OccursOnce(s[..n], r);
    }
  }

  // ---- Progress ------------------------------------------------------------

  function InboxWork<R>(inbox: seq<EngineMsg<R>>): nat {
    if inbox == [] then 0 else (if inbox[0].Add? then 5 else 1) + InboxWork(inbox[1..])
  }

  // Steps the system can still take if no further request arrives.
  function Work<R>(s: System<R>): nat {
    InboxWork(s.inbox) + 4 * |s.engine.queue.entries| + 3 * Load(s.mailboxes) + 2 * s.signals
  }

  lemma {:induction false} InboxWorkAppend<R>(inbox: seq<EngineMsg<R>>, msg: EngineMsg<R>)
    ensures InboxWork(inbox + [msg]) == InboxWork(inbox) + (if msg.Add? then 5 else 1)
  {
    if inbox != [] {
      assert (inbox + [msg])[1..] == inbox[1..] + [msg];
      InboxWorkAppend(inbox[1..], msg);
    }
  }

  lemma StepSpendsWork<R>(s: System<R>, l: Label<R>)
    requires Inv(s) && !l.Arrive? && Enabled(s, l)
    ensures Work(Step(s, l)) < Work(s)
  {
    match l
    case EngineTurn =>
      AbsorbConsistent(s);
      DispatchLoopConsistent(AbsorbedIn(s));
    case Finish(w) => LoadUpdate(s.mailboxes, w, s.mailboxes[w][1..]);
    case Forward => InboxWorkAppend(s.inbox, WorkerIdle);
  }

  ghost predicate InternalRun<R>(s: System<R>, labels: seq<Label<R>>)
    decreases |labels|
  {
    labels == [] || (!labels[0].Arrive? && Enabled(s, labels[0]) && InternalRun(Step(s, labels[0]), labels[1..]))
  }

  ghost predicate Quiescent<R(!new)>(s: System<R>) {
    forall l: Label<R> :: !l.Arrive? ==> !Enabled(s, l)
  }

  // Without new arrivals the system stops, whatever the interleaving.
  lemma {:induction false} InternalRunsAreBounded<R>(s: System<R>, labels: seq<Label<R>>)
    requires Inv(s) && InternalRun(s, labels)
    ensures |labels| <= Work(s)
    decreases |labels|
  {
    if labels != [] {
      StepSpendsWork(s, labels[0]);
      StepKeepsInv(s, labels[0]);
      InternalRunsAreBounded(Step(s, labels[0]), labels[1..]);
    }
  }

  // Where it stops, every admitted request has been completed.
  lemma QuiescentMeansDrained<R(!new)>(s: System<R>)
    requires Inv(s) && Quiescent(s) && |s.engine.idle| > 0
    ensures multiset(s.finished) == multiset(s.admitted)
    ensures s.engine.metrics.completed == |s.admitted|
    ensures s.engine.queue.entries == [] && forall i :: 0 <= i < |s.engine.idle| ==> s.engine.idle[i]
  {
    assert !Enabled(s, EngineTurn) && !Enabled(s, Forward);
    forall i | 0 <= i < |s.mailboxes|
      ensures s.mailboxes[i] == []
    {
      assert !Enabled(s, Finish(i));
    }
    LoadIsPendingSize(s.mailboxes);
    BusyBounds(s.engine.idle);
  }

  // ---- Whose flag is it? ---------------------------------------------------

  // A flag that says idle belongs to a worker with nothing to do.
  ghost predicate FlagsFaithful<R>(s: System<R>) {
    forall i :: 0 <= i < |s.engine.idle| && i < |s.mailboxes| && s.engine.idle[i] ==> s.mailboxes[i] == []
  }

  lemma FaithfulWhenOneWorker<R>(s: System<R>)
    requires Inv(s) && (|s.engine.idle| <= 1 || s.engine.queue.capacity == 0)
    ensures FlagsFaithful(s)
  {
    LoadIsPendingSize(s.mailboxes);
    if s.engine.queue.capacity == 0 {
      assert multiset(s.admitted) == multiset{};
      assert |Pending(s.mailboxes)| == 0;
    } else if |s.engine.idle| == 1 && s.engine.idle[0] {
      assert Busy(s.engine.idle) == 0;
    }
  }

  // One request arrives at an empty queue while entry i is the first idle one.
  lemma ArriveAndDispatch<R>(s: System<R>, i: nat, body: R)
    requires s.inbox == [] && s.engine.queue.entries == [] && s.engine.queue.capacity > 0
    requires i == First(s.engine.idle, true) < |s.engine.idle| == |s.mailboxes|
    ensures var r := Stamped(s.engine.queue, Normal, body);
            var s' := Step(Step(s, Arrive(Normal, body)), EngineTurn);
            && s'.inbox == [] && s'.engine.queue == s.engine.queue.(nextSeq := s.engine.queue.nextSeq + 1)
            && s'.engine.idle == s.engine.idle[i := false]
            && s'.mailboxes == s.mailboxes[i := s.mailboxes[i] + [r]]
            && s'.signals == s.signals
  {
    var e := Enqueued(s.engine, Normal, body);
    assert e.queue.entries == [Stamped(s.engine.queue, Normal, body)];
    assert Greatest(e.queue.entries) == 0;
    assert Popped(e.queue).entries == [];
    assert Dispatched(DispatchedOne(e)).1 == [];
    assert Dispatched(e) == (DispatchedOne(e), [NextTell(e)] + []);
    assert [NextTell(e)] + [] == [NextTell(e)];
    assert PutAll(s.mailboxes, [NextTell(e)]) == Put(s.mailboxes, NextTell(e)) by {
      assert [NextTell(e)][1..] == [];
    }
    var s1 := Step(s, Arrive(Normal, body));
    assert s1.inbox == [Add(Normal, body)] && s1.inbox[1..] == [];
    assert Handled(s.engine, s1.inbox[0]) == (DispatchedOne(e), [NextTell(e)]);
  }

  // Two requests go to workers 0 and 1; 1 finishes, but its signal frees entry 0.
  function MixUp<R>(body: R): seq<Label<R>> {
    [Arrive(Normal, body), EngineTurn, Arrive(Normal, body), EngineTurn, Finish(1), Forward, EngineTurn]
  }

  lemma RunAppend<R>(s: System<R>, first: seq<Label<R>>, l: Label<R>)
    ensures Run(s, first + [l]) == Step(Run(s, first), l)
    decreases |first|
  {
    if first != [] {
      assert (first + [l])[1..] == first[1..] + [l];
      RunAppend(Step(s, first[0]), first[1..], l);
    } else {
      assert first + [l] == [l] && [l][1..] == [];
    }
  }

  // With entries 0 and 1 busy, a signal from worker 1 frees entry 0.
  lemma WrongEntryFreed<R>(s: System<R>)
    requires |s.engine.idle| == |s.mailboxes| >= 2 && s.inbox == [] && s.engine.queue.entries == []
    requires !s.engine.idle[0] && s.mailboxes[0] != [] && s.mailboxes[1] != []
    ensures !FlagsFaithful(Step(Step(Step(s, Finish(1)), Forward), EngineTurn))
  {
    var s2 := Step(Step(s, Finish(1)), Forward);
    assert s2.inbox == [WorkerIdle] && s2.engine == s.engine && s2.mailboxes[0] == s.mailboxes[0];
    assert First(s.engine.idle, false) == 0;
    assert Dispatched(Freed(s.engine)) == (Freed(s.engine), []);
    var s3 := Step(s2, EngineTurn);
    assert s3.engine.idle[0] && s3.mailboxes[0] != [];
  }

  lemma TwoDispatches<R>(capacity: nat, workers: nat, body: R)
    requires workers >= 2 && capacity >= 1
    ensures var s := Step(Step(Step(Step(Start(capacity, workers), Arrive(Normal, body)), EngineTurn),
                               Arrive(Normal, body)), EngineTurn);
            && |s.engine.idle| == |s.mailboxes| >= 2 && s.inbox == [] && s.engine.queue.entries == []
            && !s.engine.idle[0] && s.mailboxes[0] != [] && s.mailboxes[1] != []
  {
    var s0 := Start<R>(capacity, workers);
    ArriveAndDispatch(s0, 0, body);
    var s2 := Step(Step(s0, Arrive(Normal, body)), EngineTurn);
    assert First(s2.engine.idle, true) == 1;
    ArriveAndDispatch(s2, 1, body);
  }

  lemma MixUpIsUnfaithful<R>(capacity: nat, workers: nat, body: R)
    requires workers >= 2 && capacity >= 1
    ensures !FlagsFaithful(Run(Start(capacity, workers), MixUp(body)))
  {
    var s0 := Start<R>(capacity, workers);
    TwoDispatches(capacity, workers, body);
    WrongEntryFreed(Step(Step(Step(Step(s0, Arrive(Normal, body)), EngineTurn), Arrive(Normal, body)), EngineTurn));
    MixUpRun(s0, body);
  }

  lemma MixUpRun<R>(s: System<R>, body: R)
    ensures Run(s, MixUp(body))
            == Step(Step(Step(Step(Step(Step(Step(s, Arrive(Normal, body)), EngineTurn), Arrive(Normal, body)),
                                        EngineTurn), Finish(1)), Forward), EngineTurn)
  {
    var ls := MixUp(body);
    assert Run(s, ls[..0]) == s;
    assert ls[..1] == ls[..0] + [ls[0]] && ls[..2] == ls[..1] + [ls[1]] && ls[..3] == ls[..2] + [ls[2]];
    assert ls[..4] == ls[..3] + [ls[3]] && ls[..5] == ls[..4] + [ls[4]] && ls[..6] == ls[..5] + [ls[5]];
    assert ls == ls[..6] + [ls[6]];
    RunAppend(s, ls[..0], ls[0]);
    RunAppend(s, ls[..1], ls[1]);
    RunAppend(s, ls[..2], ls[2]);
    RunAppend(s, ls[..3], ls[3]);
    RunAppend(s, ls[..4], ls[4]);
    RunAppend(s, ls[..5], ls[5]);
    RunAppend(s, ls[..6], ls[6]);
  }

  // The configurations in which an idle flag can be trusted for its own worker.
  lemma FlagsFaithfulExactly<R(!new)>(capacity: nat, workers: nat, body: R)
    ensures (forall labels: seq<Label<R>> :: FlagsFaithful(Run(Start(capacity, workers), labels)))
            <==> workers <= 1 || capacity == 0
  {
    if workers <= 1 || capacity == 0 {
      forall labels: seq<Label<R>>
        ensures FlagsFaithful(Run(Start(capacity, workers), labels))
      {
        StartIsConsistent<R>(capacity, workers);
        RunKeepsInv(Start(capacity, workers), labels);
        RunKeepsConfig(Start(capacity, workers), labels);
        FaithfulWhenOneWorker(Run(Start<R>(capacity, workers), labels));
      }
    } else {
      MixUpIsUnfaithful(capacity, workers, body);
    }
  }

  lemma {:induction false} DispatchedKeepsConfig<R>(e: EngineState<R>)
    ensures |Dispatched(e).0.idle| == |e.idle| && Dispatched(e).0.queue.capacity == e.queue.capacity
    decreases |e.queue.entries|
  {
    if CanDispatch(e) {
      DispatchedKeepsConfig(DispatchedOne(e));
    }
  }

  lemma {:induction false} RunKeepsConfig<R>(s: System<R>, labels: seq<Label<R>>)
    ensures |Run(s, labels).engine.idle| == |s.engine.idle|
    ensures Run(s, labels).engine.queue.capacity == s.engine.queue.capacity
    decreases |labels|
  {
    if labels != [] {
      if labels[0].EngineTurn? && s.inbox != [] {
        DispatchedKeepsConfig(Absorbed(s.engine, s.inbox[0]));
      }
      RunKeepsConfig(Step(s, labels[0]), labels[1..]);
    }
  }

  // From any reachable state, a run without arrivals that cannot be extended
  // has completed everything that was ever admitted.
  lemma EverythingCompletes<R(!new)>(capacity: nat, workers: nat, before: seq<Label<R>>, labels: seq<Label<R>>)
    requires workers > 0
    requires InternalRun(Run(Start(capacity, workers), before), labels)
    requires Quiescent(Run(Run(Start(capacity, workers), before), labels))
    ensures var s := Run(Run(Start(capacity, workers), before), labels);
            multiset(s.finished) == multiset(s.admitted) && s.engine.metrics.completed == |s.admitted|
  {
    var s0 := Start<R>(capacity, workers);
    StartIsConsistent<R>(capacity, workers);
    RunKeepsInv(s0, before);
    RunKeepsConfig(s0, before);
    RunKeepsInv(Run(s0, before), labels);
    RunKeepsConfig(Run(s0, before), labels);
    QuiescentMeansDrained(Run(Run(s0, before), labels));
  }
}
