// The remote engine (crates/inference-remote-core/src/engine.rs): a bounded
// priority queue, one idle flag per worker, and the metrics counters.
module RemoteEngine {
  import opened Wrappers
  import opened RequestQueues

  datatype Metrics = Metrics(queued: nat, inFlight: nat, completed: nat, rejected: nat)

  datatype EngineMsg<R> = Add(priority: Priority, body: R) | WorkerIdle

  // A request placed in one worker's mailbox.
  datatype Tell<R> = Tell(worker: nat, req: Request<R>)

  datatype Admission = Admitted | Backpressure | NotARequest

  // ---- Specification state -------------------------------------------------

  datatype EngineState<R> = EngineState(queue: QueueState<R>, idle: seq<bool>, metrics: Metrics)

  // Index of the first flag with the given value, or the length if there is none.
  function First(flags: seq<bool>, value: bool): (i: nat)
    ensures i <= |flags|
    ensures i < |flags| ==> flags[i] == value
    ensures forall j :: 0 <= j < i ==> flags[j] != value
  {
    if flags == [] || flags[0] == value then 0 else 1 + First(flags[1..], value)
  }

  function SaturatingDec(n: nat): nat {
    if n == 0 then 0 else n - 1
  }

  function Enqueued<R>(e: EngineState<R>, p: Priority, body: R): EngineState<R> {
    e.(queue := Pushed(e.queue, p, body),
       metrics := if Full(e.queue) then e.metrics.(rejected := e.metrics.rejected + 1)
                  else e.metrics.(queued := e.metrics.queued + 1))
  }

  predicate CanDispatch<R>(e: EngineState<R>) {
    e.queue.entries != [] && First(e.idle, true) < |e.idle|
  }

  function NextTell<R>(e: EngineState<R>): Tell<R>
    requires CanDispatch(e)
  {
    Tell(First(e.idle, true), Top(e.queue))
  }

  function DispatchedOne<R>(e: EngineState<R>): EngineState<R>
    requires CanDispatch(e)
  {
    EngineState(Popped(e.queue), e.idle[First(e.idle, true) := false],
                e.metrics.(queued := SaturatingDec(e.metrics.queued), inFlight := e.metrics.inFlight + 1))
  }

  // The state after dispatching as long as possible, and what was sent.
  function Dispatched<R>(e: EngineState<R>): (EngineState<R>, seq<Tell<R>>)
    decreases |e.queue.entries|
  {
    if !CanDispatch(e) then (e, [])
    else
      var (final, sent) := Dispatched(DispatchedOne(e));
      (final, [NextTell(e)] + sent)
  }

  function Freed<R>(e: EngineState<R>): EngineState<R> {
    var i := First(e.idle, false);
    if i == |e.idle| then e
    else
      e.(idle := e.idle[i := true],
         metrics := e.metrics.(inFlight := SaturatingDec(e.metrics.inFlight),
                               completed := e.metrics.completed + 1))
  }

  function Handled<R>(e: EngineState<R>, msg: EngineMsg<R>): (EngineState<R>, seq<Tell<R>>) {
    match msg
    case Add(p, body) => Dispatched(Enqueued(e, p, body))
    case WorkerIdle => Dispatched(Freed(e))
  }

  // What dispatching from `now` adds to `sent` is what dispatching from `start` sends.
  ghost predicate Owed<R>(start: EngineState<R>, now: EngineState<R>, sent: seq<Tell<R>>) {
    Dispatched(start) == (Dispatched(now).0, sent + Dispatched(now).1)
  }

  lemma OwedAtStart<R>(start: EngineState<R>)
    ensures Owed(start, start, [])
  {
    assert [] + Dispatched(start).1 == Dispatched(start).1;
  }

  lemma OwedStep<R>(start: EngineState<R>, now: EngineState<R>, sent: seq<Tell<R>>)
    requires Owed(start, now, sent) && CanDispatch(now)
    ensures Owed(start, DispatchedOne(now), sent + [NextTell(now)])
  {
    var t, rest := NextTell(now), Dispatched(DispatchedOne(now)).1;
    assert sent + ([t] + rest) == (sent + [t]) + rest;
  }

  lemma OwedDone<R>(start: EngineState<R>, now: EngineState<R>, sent: seq<Tell<R>>)
    requires Owed(start, now, sent) && !CanDispatch(now)
    ensures Dispatched(start) == (now, sent)
  {
    assert sent + [] == sent;
  }

  // ---- The actor -----------------------------------------------------------

  class EngineCore<R> {
    const queue: RequestQueue<R>
    var idle: seq<bool>
    var metrics: Metrics

    ghost function State(): EngineState<R>
      reads this, queue
    {
      EngineState(queue.State(), idle, metrics)
    }

    constructor (capacity: nat, workerCount: nat)
      ensures fresh(queue) && WellFormed(queue.State())
      ensures State() == Initial(capacity, workerCount)
    {
      queue := new RequestQueue(capacity);
      idle := seq(workerCount, _ => true);
      metrics := Metrics(0, 0, 0, 0);
    }

    method Enqueue(p: Priority, body: R) returns (admission: Admission)
      requires WellFormed(queue.State())
      modifies this, queue
      ensures WellFormed(queue.State())
      ensures State() == Enqueued(old(State()), p, body)
      ensures admission == if Full(old(State()).queue) then Backpressure else Admitted
    {
      var pushed := queue.Push(Request(p, 0, body));
      match pushed {
        case Ok(_) =>
          metrics := metrics.(queued := metrics.queued + 1);
          admission := Admitted;
        case Err(_) =>
          metrics := metrics.(rejected := metrics.rejected + 1);
          admission := Backpressure;
      }
    }

    // Hand the top request to the worker at an idle entry.
    method DispatchTo(idx: nat) returns (t: Tell<R>)
      requires WellFormed(queue.State()) && CanDispatch(State()) && idx == First(idle, true)
      modifies this, queue
      ensures WellFormed(queue.State())
      ensures State() == DispatchedOne(old(State())) && t == NextTell(old(State()))
    {
      var req := queue.Pop();
      idle := idle[idx := false];
      metrics := metrics.(queued := SaturatingDec(metrics.queued), inFlight := metrics.inFlight + 1);
      t := Tell(idx, req.value);
    }

    method TryDispatch() returns (sent: seq<Tell<R>>)
      requires WellFormed(queue.State())
      modifies this, queue
      ensures WellFormed(queue.State())
      ensures (State(), sent) == Dispatched(old(State()))
    {
      sent := [];
      ghost var start := State();
      OwedAtStart(start);
      while queue.inner != []
        invariant WellFormed(queue.State()) && Owed(start, State(), sent)
        decreases |queue.inner|
      {
        var idx := First(idle, true);
        if idx == |idle| {
          break;
        }
        OwedStep(start, State(), sent);
        var t := DispatchTo(idx);
        sent := sent + [t];
      }
      OwedDone(start, State(), sent);
    }

    method Handle(msg: EngineMsg<R>) returns (admission: Admission, sent: seq<Tell<R>>)
      requires WellFormed(queue.State())
      modifies this, queue
      ensures WellFormed(queue.State())
      ensures (State(), sent) == Handled(old(State()), msg)
      ensures admission == match msg
                           case WorkerIdle => NotARequest
                           case Add(_, _) => if Full(old(State()).queue) then Backpressure else Admitted
    {
      match msg {
        case Add(p, body) =>
          admission := Enqueue(p, body);
          sent := TryDispatch();
        case WorkerIdle =>
          var i := First(idle, false);
          if i < |idle| {
            idle := idle[i := true];
            metrics := metrics.(inFlight := SaturatingDec(metrics.inFlight), completed := metrics.completed + 1);
          }
          admission := NotARequest;
          sent := TryDispatch();
      }
    }
  }

  function Initial<R>(capacity: nat, workerCount: nat): EngineState<R> {
    EngineState(QueueState([], capacity, 0), seq(workerCount, _ => true), Metrics(0, 0, 0, 0))
  }
}
