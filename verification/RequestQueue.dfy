// The engine's bounded priority queue (crates/inference-remote-core/src/queue.rs).
//
// The heap's internal layout is not observable; what is, is that `pop` removes
// the greatest entry under `cmp`.  The contents are therefore a sequence in no
// particular order, and `Greatest` finds the entry to remove.
module RequestQueues {
  import opened Wrappers

  datatype Priority = Background | Normal | High | Critical

  datatype Request<R> = Request(priority: Priority, arrivalSeq: nat, body: R)

  datatype Ordering = Less | Equal | Greater

  function Rank(p: Priority): nat {
    match p
    case Background => 0
    case Normal => 1
    case High => 2
    case Critical => 3
  }

  function CompareNat(a: nat, b: nat): Ordering {
    if a < b then Less else if a == b then Equal else Greater
  }

  // Priority first; among equals the lower arrival number is the greater.
  function Cmp<R>(a: Request<R>, b: Request<R>): Ordering {
    match CompareNat(Rank(a.priority), Rank(b.priority))
    case Equal => CompareNat(b.arrivalSeq, a.arrivalSeq)
    case other => other
  }

  predicate Beats<R>(a: Request<R>, b: Request<R>) {
    Cmp(a, b) == Greater
  }

  // ---- Specification state -------------------------------------------------

  datatype QueueState<R> = QueueState(entries: seq<Request<R>>, capacity: nat, nextSeq: nat)

  // What every reachable queue satisfies.
  ghost predicate WellFormed<R>(q: QueueState<R>) {
    && |q.entries| <= q.capacity
    && (forall i :: 0 <= i < |q.entries| ==> q.entries[i].arrivalSeq < q.nextSeq)
    && DistinctArrivals(q.entries)
  }

  ghost predicate DistinctArrivals<R>(s: seq<Request<R>>) {
    forall i: int, j: int :: Differ(s, i, j)
  }

  // Named so that a proof chooses the pairs it compares.
  ghost predicate Differ<R>(s: seq<Request<R>>, i: int, j: int) {
    0 <= i < j < |s| ==> s[i].arrivalSeq != s[j].arrivalSeq
  }

  predicate Full<R>(q: QueueState<R>) {
    |q.entries| >= q.capacity
  }

  function Stamped<R>(q: QueueState<R>, p: Priority, body: R): Request<R> {
    Request(p, q.nextSeq, body)
  }

  function Pushed<R>(q: QueueState<R>, p: Priority, body: R): QueueState<R> {
    if Full(q) then q
    else q.(entries := q.entries + [Stamped(q, p, body)], nextSeq := q.nextSeq + 1)
  }

  // Index of an entry that no other entry beats.
  function Greatest<R>(s: seq<Request<R>>): (k: nat)
    requires s != []
    ensures k < |s|
    ensures forall j :: 0 <= j < |s| ==> !Beats(s[j], s[k])
  {
    var n := |s| - 1;
    if n == 0 then 0
    else
      var k := Greatest(s[..n]);
      if Beats(s[n], s[k]) then n else k
  }

  function Without<T>(s: seq<T>, k: nat): seq<T>
    requires k < |s|
  {
    seq(|s| - 1, i requires 0 <= i < |s| - 1 => if i < k then s[i] else s[i + 1])
  }

  function Top<R>(q: QueueState<R>): Request<R>
    requires q.entries != []
  {
    q.entries[Greatest(q.entries)]
  }

  function Popped<R>(q: QueueState<R>): QueueState<R>
    requires q.entries != []
  {
    q.(entries := Without(q.entries, Greatest(q.entries)))
  }

  // ---- The queue itself ----------------------------------------------------

  class RequestQueue<R> {
    var inner: seq<Request<R>>
    const capacity: nat
    var nextSeq: nat

    ghost function State(): QueueState<R>
      reads this
    {
      QueueState(inner, capacity, nextSeq)
    }

    constructor (capacity: nat)
      ensures State() == QueueState([], capacity, 0)
      ensures WellFormed(State())
    {
      this.capacity := capacity;
      inner := [];
      nextSeq := 0;
    }

    method IsFull() returns (full: bool)
      ensures full == Full(State())
    {
      full := |inner| >= capacity;
    }

    // `Err` hands the request back untouched and leaves the queue as it was.
    method Push(req: Request<R>) returns (r: Result<(), Request<R>>)
      requires WellFormed(State())
      modifies this
      ensures WellFormed(State())
      ensures State() == Pushed(old(State()), req.priority, req.body)
      ensures r == if Full(old(State())) then Err(req) else Ok(())
    {
      var full := IsFull();
      if full {
        return Err(req);
      }
      PushKeepsWellFormed(State(), req.priority, req.body);
      var stamped := req.(arrivalSeq := nextSeq);
      nextSeq := nextSeq + 1;
      inner := inner + [stamped];
      r := Ok(());
    }

    method Pop() returns (r: Option<Request<R>>)
      requires WellFormed(State())
      modifies this
      ensures WellFormed(State())
      ensures old(inner) == [] ==> r == None && State() == old(State())
      ensures old(inner) != [] ==> r == Some(Top(old(State()))) && State() == Popped(old(State()))
    {
      if inner == [] {
        return None;
      }
      var k := Greatest(inner);
      PopKeepsWellFormed(State());
      r := Some(inner[k]);
      inner := Without(inner, k);
    }
  }

  // ---- `cmp` is a strict total order on the contents -----------------------

  lemma SameArrivalSameRequest<R>(q: QueueState<R>, a: Request<R>, b: Request<R>)
    requires WellFormed(q) && a in q.entries && b in q.entries
    ensures a.arrivalSeq == b.arrivalSeq ==> a == b
  {
    var i :| 0 <= i < |q.entries| && q.entries[i] == a;
    var j :| 0 <= j < |q.entries| && q.entries[j] == b;
    assert Differ(q.entries, i, j) && Differ(q.entries, j, i);
  }

  lemma CmpOrdersContents<R>(q: QueueState<R>, a: Request<R>, b: Request<R>, c: Request<R>)
    requires WellFormed(q)
    requires a in q.entries && b in q.entries && c in q.entries
    ensures a == b || Beats(a, b) || Beats(b, a)
    ensures !(Beats(a, b) && Beats(b, a)) && !Beats(a, a)
    ensures Beats(a, b) && Beats(b, c) ==> Beats(a, c)
  {
    if a != b {
      SameArrivalSameRequest(q, a, b);
      RankIsInjective(a.priority, b.priority);
    }
  }

  lemma RankIsInjective(a: Priority, b: Priority)
    ensures Rank(a) == Rank(b) <==> a == b
  {
  }

  // So there is exactly one entry that `pop` may remove.
  lemma TopIsUnique<R>(q: QueueState<R>, a: Request<R>)
    requires WellFormed(q) && a in q.entries
    ensures a == Top(q) <==> forall j :: 0 <= j < |q.entries| && q.entries[j] != a ==> Beats(a, q.entries[j])
  {
    var t := Top(q);
    forall j | 0 <= j < |q.entries| && q.entries[j] != t
      ensures Beats(t, q.entries[j])
    {
      CmpOrdersContents(q, t, q.entries[j], t);
    }
    if a != t {
      CmpOrdersContents(q, a, t, a);
    }
  }

  lemma WithoutMembers<T>(s: seq<T>, k: nat)
    requires k < |s|
    ensures multiset(s) == multiset(Without(s, k)) + multiset{s[k]}
    ensures forall x :: x in Without(s, k) ==> x in s
    ensures forall x :: x in s && x != s[k] ==> x in Without(s, k)
  {
    assert s == s[..k] + [s[k]] + s[k + 1..];
    assert Without(s, k) == s[..k] + s[k + 1..];
    forall x | x in s && x != s[k]
      ensures x in Without(s, k)
    {
      assert x in multiset(s);
    }
  }

  lemma PopKeepsWellFormed<R>(q: QueueState<R>)
    requires WellFormed(q) && q.entries != []
    ensures WellFormed(Popped(q))
    ensures Top(q) !in Popped(q).entries
  {
    var k := Greatest(q.entries);
    var rest := Without(q.entries, k);
    forall i: int, j: int ensures Differ(rest, i, j) {
      assert Differ(q.entries, if i < k then i else i + 1, if j < k then j else j + 1);
    }
    forall i | 0 <= i < |rest| ensures rest[i] != Top(q) {
      assert Differ(q.entries, i, k) && Differ(q.entries, k, i + 1);
    }
  }

  lemma PushKeepsWellFormed<R>(q: QueueState<R>, p: Priority, body: R)
    requires WellFormed(q)
    ensures WellFormed(Pushed(q, p, body))
  {
    forall i: int, j: int ensures Differ(Pushed(q, p, body).entries, i, j) {
      assert Differ(q.entries, i, j);
    }
  }

  // ---- Runs of pushes and pops ---------------------------------------------

  datatype Op<R> = Push(priority: Priority, body: R) | Pop

  function Apply<R>(q: QueueState<R>, op: Op<R>): QueueState<R> {
    match op
    case Push(p, b) => Pushed(q, p, b)
    case Pop => if q.entries == [] then q else Popped(q)
  }

  function Final<R>(q: QueueState<R>, ops: seq<Op<R>>): QueueState<R>
    decreases |ops|
  {
    if ops == [] then q else Final(Apply(q, ops[0]), ops[1..])
  }

  function ServedBy<R>(q: QueueState<R>, op: Op<R>): seq<Request<R>> {
    if op.Pop? && q.entries != [] then [Top(q)] else []
  }

  function AcceptedBy<R>(q: QueueState<R>, op: Op<R>): seq<Request<R>> {
    if op.Push? && !Full(q) then [Stamped(q, op.priority, op.body)] else []
  }

  // The requests popped by a run, in order.
  function Served<R>(q: QueueState<R>, ops: seq<Op<R>>): seq<Request<R>>
    decreases |ops|
  {
    if ops == [] then [] else ServedBy(q, ops[0]) + Served(Apply(q, ops[0]), ops[1..])
  }

  // The requests accepted by a run, in order.
  function Accepted<R>(q: QueueState<R>, ops: seq<Op<R>>): seq<Request<R>>
    decreases |ops|
  {
    if ops == [] then [] else AcceptedBy(q, ops[0]) + Accepted(Apply(q, ops[0]), ops[1..])
  }

  lemma ApplyKeepsWellFormed<R>(q: QueueState<R>, op: Op<R>)
    requires WellFormed(q)
    ensures WellFormed(Apply(q, op))
    ensures Apply(q, op).capacity == q.capacity && q.nextSeq <= Apply(q, op).nextSeq
  {
    if op.Push? {
      PushKeepsWellFormed(q, op.priority, op.body);
    } else if q.entries != [] {
      PopKeepsWellFormed(q);
    }
  }

  // Invariant over every run: capacity is never exceeded and the arrival
  // numbers in the queue stay distinct and below the next one to be given out.
  lemma {:induction false} RunKeepsWellFormed<R>(q: QueueState<R>, ops: seq<Op<R>>)
    requires WellFormed(q)
    ensures WellFormed(Final(q, ops))
    ensures Final(q, ops).capacity == q.capacity && q.nextSeq <= Final(q, ops).nextSeq
    decreases |ops|
  {
    if ops != [] {
      ApplyKeepsWellFormed(q, ops[0]);
      RunKeepsWellFormed(Apply(q, ops[0]), ops[1..]);
    }
  }

  lemma StepBalance<R>(q: QueueState<R>, op: Op<R>)
    ensures multiset(q.entries) + multiset(AcceptedBy(q, op))
            == multiset(ServedBy(q, op)) + multiset(Apply(q, op).entries)
  {
    if op.Pop? && q.entries != [] {
      WithoutMembers(q.entries, Greatest(q.entries));
    }
  }

  lemma ChainBalances<T>(before: multiset<T>, in0: multiset<T>, out0: multiset<T>, mid: multiset<T>,
                         in1: multiset<T>, out1: multiset<T>, after: multiset<T>)
    requires before + in0 == out0 + mid
    requires mid + in1 == out1 + after
    ensures before + (in0 + in1) == (out0 + out1) + after
  {
    calc {
      before + (in0 + in1);
      (before + in0) + in1;
      (out0 + mid) + in1;
      out0 + (mid + in1);
      out0 + (out1 + after);
      (out0 + out1) + after;
    }
  }

  // Conservation: present + accepted = served + still queued.
  lemma {:induction false} NothingLostOrDuplicated<R>(q: QueueState<R>, ops: seq<Op<R>>)
    ensures multiset(q.entries) + multiset(Accepted(q, ops))
            == multiset(Served(q, ops)) + multiset(Final(q, ops).entries)
    decreases |ops|
  {
    if ops != [] {
      var q' := Apply(q, ops[0]);
      StepBalance(q, ops[0]);
      NothingLostOrDuplicated(q', ops[1..]);
      ChainBalances(multiset(q.entries), multiset(AcceptedBy(q, ops[0])), multiset(ServedBy(q, ops[0])),
                    multiset(q'.entries), multiset(Accepted(q', ops[1..])), multiset(Served(q', ops[1..])),
                    multiset(Final(q, ops).entries));
    }
  }

  // Present here, or accepted later.
  predicate KnownTo<R(==)>(q: QueueState<R>, x: Request<R>) {
    x in q.entries || x.arrivalSeq >= q.nextSeq
  }

  lemma KnownBefore<R>(q: QueueState<R>, op: Op<R>, x: Request<R>)
    requires WellFormed(q) && KnownTo(Apply(q, op), x)
    ensures KnownTo(q, x)
  {
    if op.Pop? && q.entries != [] {
      WithoutMembers(q.entries, Greatest(q.entries));
    }
  }

  // Popping the top, nothing known afterwards has its arrival number.
  lemma TopIsGone<R>(q: QueueState<R>, x: Request<R>)
    requires WellFormed(q) && q.entries != [] && KnownTo(Popped(q), x)
    ensures x.arrivalSeq != Top(q).arrivalSeq
  {
    PopKeepsWellFormed(q);
    WithoutMembers(q.entries, Greatest(q.entries));
    if x in Popped(q).entries {
      SameArrivalSameRequest(q, x, Top(q));
    }
  }

  lemma DistinctCons<R>(x: Request<R>, tail: seq<Request<R>>)
    requires DistinctArrivals(tail) && forall i :: 0 <= i < |tail| ==> tail[i].arrivalSeq != x.arrivalSeq
    ensures DistinctArrivals([x] + tail)
  {
    forall i: int, j: int ensures Differ([x] + tail, i, j) {
      assert Differ(tail, i - 1, j - 1);
    }
  }

  lemma DistinctPrefix<R>(s: seq<Request<R>>, k: nat)
    requires DistinctArrivals(s) && k <= |s|
    ensures DistinctArrivals(s[..k])
  {
    forall i: int, j: int ensures Differ(s[..k], i, j) {
      assert Differ(s, i, j);
    }
  }

  // What a run serves was either present or accepted later, and only once.
  lemma {:induction false} ServedAreKnown<R>(q: QueueState<R>, ops: seq<Op<R>>)
    requires WellFormed(q)
    ensures forall i :: 0 <= i < |Served(q, ops)| ==> KnownTo(q, Served(q, ops)[i])
    ensures DistinctArrivals(Served(q, ops))
    decreases |ops|
  {
    if ops != [] {
      var q', tail := Apply(q, ops[0]), Served(Apply(q, ops[0]), ops[1..]);
      ApplyKeepsWellFormed(q, ops[0]);
      ServedAreKnown(q', ops[1..]);
      forall i | 0 <= i < |tail| ensures KnownTo(q, tail[i]) {
        KnownBefore(q, ops[0], tail[i]);
      }
      if ops[0].Pop? && q.entries != [] {
        forall i | 0 <= i < |tail| ensures tail[i].arrivalSeq != Top(q).arrivalSeq {
          TopIsGone(q, tail[i]);
        }
        DistinctCons(Top(q), tail);
      } else {
        assert Served(q, ops) == tail;
      }
    }
  }

  // A popped top is served first, and only then.
  lemma TopIsServedFirst<R>(q: QueueState<R>, ops: seq<Op<R>>, k: nat)
    requires WellFormed(q) && q.entries != [] && ops != [] && ops[0].Pop?
    requires k < |Served(q, ops)| && Served(q, ops)[k] == Top(q)
    ensures k == 0
  {
    ServedAreKnown(q, ops);
    assert Differ(Served(q, ops), 0, k);
  }

  // Everything else stays when the top is popped, and is beaten by it.
  lemma OthersStay<R>(q: QueueState<R>, r: Request<R>)
    requires WellFormed(q) && r in q.entries && r != Top(q)
    ensures r in Popped(q).entries && Beats(Top(q), r)
  {
    WithoutMembers(q.entries, Greatest(q.entries));
    CmpOrdersContents(q, Top(q), r, r);
  }

  // Whatever is served before an entry beats it.
  lemma {:induction false} AheadBeats<R>(q: QueueState<R>, ops: seq<Op<R>>, i: nat, k: nat)
    requires WellFormed(q) && i < k < |Served(q, ops)| && Served(q, ops)[k] in q.entries
    ensures Beats(Served(q, ops)[i], Served(q, ops)[k])
    decreases |ops|
  {
    var q', r := Apply(q, ops[0]), Served(q, ops)[k];
    ApplyKeepsWellFormed(q, ops[0]);
    if ops[0].Push? || q.entries == [] {
      AheadBeats(q', ops[1..], i, k);
    } else {
      if r == Top(q) {
        TopIsServedFirst(q, ops, k);
      }
      OthersStay(q, r);
      if i > 0 {
        AheadBeats(q', ops[1..], i - 1, k - 1);
      }
    }
  }

  // A pop leaves r where a present entry beats it, and takes that entry or leaves it too.
  lemma PopLeavesBeaten<R>(q: QueueState<R>, x: Request<R>, r: Request<R>)
    requires WellFormed(q) && x in q.entries && r in q.entries && Beats(x, r)
    ensures r in Popped(q).entries && (x == Top(q) || x in Popped(q).entries)
  {
    assert r != Top(q);
    WithoutMembers(q.entries, Greatest(q.entries));
  }

  lemma ServedAfterPop<R>(q: QueueState<R>, ops: seq<Op<R>>, k: nat)
    requires ops != [] && ops[0].Pop? && q.entries != [] && 0 < k < |Served(q, ops)|
    ensures var tail := Served(Popped(q), ops[1..]);
            k - 1 < |tail| && Served(q, ops)[0] == Top(q) && Served(q, ops)[k] == tail[k - 1]
  {
  }

  // An entry that beats r is served before it, if r is served at all.
  lemma {:induction false} BeaterIsAhead<R>(q: QueueState<R>, ops: seq<Op<R>>, x: Request<R>, r: Request<R>, k: nat)
    returns (i: nat)
    requires WellFormed(q) && x in q.entries && r in q.entries && Beats(x, r)
    requires k < |Served(q, ops)| && Served(q, ops)[k] == r
    ensures i < k && Served(q, ops)[i] == x
    decreases |ops|
  {
    ApplyKeepsWellFormed(q, ops[0]);
    if ops[0].Push? || q.entries == [] {
      i := BeaterIsAhead(Apply(q, ops[0]), ops[1..], x, r, k);
    } else {
      PopLeavesBeaten(q, x, r);
      assert k > 0;
      if x == Top(q) {
        i := 0;
      } else {
        ServedAfterPop(q, ops, k);
        i := BeaterIsAhead(Popped(q), ops[1..], x, r, k - 1);
        i := i + 1;
      }
    }
  }

  // Everything served ahead of r beats r, and everything present that beats r
  // is served ahead of it.
  lemma AheadIffBeats<R(!new)>(q: QueueState<R>, ops: seq<Op<R>>, r: Request<R>, k: nat)
    requires WellFormed(q) && r in q.entries
    requires k < |Served(q, ops)| && Served(q, ops)[k] == r
    ensures forall i :: 0 <= i < k ==> Beats(Served(q, ops)[i], r)
    ensures forall x :: x in q.entries && Beats(x, r) ==> x in Served(q, ops)[..k]
  {
    forall i | 0 <= i < k ensures Beats(Served(q, ops)[i], r) {
      AheadBeats(q, ops, i, k);
    }
    forall x | x in q.entries && Beats(x, r) ensures x in Served(q, ops)[..k] {
      var i := BeaterIsAhead(q, ops, x, r, k);
      assert Served(q, ops)[..k][i] == x;
    }
  }

  // ---- What the order means ------------------------------------------------

  // The order of urgency, written out: Critical, High, Normal, Background.
  predicate MoreUrgent(a: Priority, b: Priority) {
    || (a == Critical && (b == High || b == Normal || b == Background))
    || (a == High && (b == Normal || b == Background))
    || (a == Normal && b == Background)
  }

  // The promise: more urgent requests first, and older ones first among equals.
  predicate GoesFirst<R>(a: Request<R>, b: Request<R>) {
    MoreUrgent(a.priority, b.priority) || (a.priority == b.priority && a.arrivalSeq < b.arrivalSeq)
  }

  lemma BeatsMeansGoesFirst<R>(a: Request<R>, b: Request<R>)
    ensures Beats(a, b) <==> GoesFirst(a, b)
  {
  }

  // The popped entry: nothing queued is more urgent, and nothing as urgent is older.
  lemma TopIsMostUrgent<R>(q: QueueState<R>, x: Request<R>)
    requires WellFormed(q) && x in q.entries
    ensures !MoreUrgent(x.priority, Top(q).priority)
    ensures x.priority == Top(q).priority && x != Top(q) ==> Top(q).arrivalSeq < x.arrivalSeq
  {
    BeatsMeansGoesFirst(x, Top(q));
    SameArrivalSameRequest(q, x, Top(q));
  }

  // In every run, a queued request is served before any less urgent one.
  lemma UrgentFirst<R>(q: QueueState<R>, ops: seq<Op<R>>, x: Request<R>, r: Request<R>, k: nat) returns (i: nat)
    requires WellFormed(q) && x in q.entries && r in q.entries && MoreUrgent(x.priority, r.priority)
    requires k < |Served(q, ops)| && Served(q, ops)[k] == r
    ensures i < k && Served(q, ops)[i] == x
  {
    BeatsMeansGoesFirst(x, r);
    i := BeaterIsAhead(q, ops, x, r, k);
  }

  // A push is accepted exactly while fewer than `capacity` requests wait; the
  // newcomer keeps its priority and body and is younger than all of them.
  lemma AcceptedExactly<R>(q: QueueState<R>, p: Priority, body: R)
    requires WellFormed(q)
    ensures var q' := Pushed(q, p, body);
            if |q.entries| < q.capacity
            then exists seqNo :: q'.entries == q.entries + [Request(p, seqNo, body)]
                                 && forall i :: 0 <= i < |q.entries| ==> q.entries[i].arrivalSeq < seqNo
            else q' == q
  {
    if |q.entries| < q.capacity {
      assert Pushed(q, p, body).entries == q.entries + [Request(p, q.nextSeq, body)];
    }
  }

  // ---- Bounded overtaking --------------------------------------------------

  ghost function PresentAhead<R(!new)>(q: QueueState<R>, r: Request<R>): set<Request<R>> {
    set x | x in q.entries && GoesFirst(x, r)
  }

  ghost function LaterAhead<R(!new)>(q: QueueState<R>, ahead: seq<Request<R>>, r: Request<R>): set<Request<R>> {
    set x | x in ahead && x.arrivalSeq >= q.nextSeq && MoreUrgent(x.priority, r.priority)
  }

  lemma {:induction false} CountDistinct<R(!new)>(s: seq<Request<R>>)
    requires DistinctArrivals(s)
    ensures |set x | x in s| == |s|
  {
    if s != [] {
      var n := |s| - 1;
      DistinctPrefix(s, n);
      CountDistinct(s[..n]);
      assert s == s[..n] + [s[n]];
      assert (set x | x in s) == (set x | x in s[..n]) + {s[n]};
      forall i | 0 <= i < n ensures s[i] != s[n] {
        assert Differ(s, i, n);
      }
    }
  }

  // Every request served ahead of r is in exactly one of the two classes.
  lemma AheadSplits<R(!new)>(q: QueueState<R>, ahead: seq<Request<R>>, r: Request<R>)
    requires WellFormed(q) && r in q.entries
    requires forall x :: x in ahead ==> GoesFirst(x, r) && (x in q.entries || x.arrivalSeq >= q.nextSeq)
    requires forall x :: x in q.entries && GoesFirst(x, r) ==> x in ahead
    ensures (set x | x in ahead) == PresentAhead(q, r) + LaterAhead(q, ahead, r)
    ensures PresentAhead(q, r) !! LaterAhead(q, ahead, r)
  {
    assert forall x :: x in q.entries ==> x.arrivalSeq < q.nextSeq;
  }

  // The number of pops before r is the number of entries that go before it when we
  // look, plus the strictly more urgent requests accepted since and served first.
  lemma BoundedOvertaking<R(!new)>(q: QueueState<R>, ops: seq<Op<R>>, r: Request<R>, k: nat)
    requires WellFormed(q) && r in q.entries
    requires k < |Served(q, ops)| && Served(q, ops)[k] == r
    ensures k == |PresentAhead(q, r)| + |LaterAhead(q, Served(q, ops)[..k], r)|
  {
    var log := Served(q, ops);
    var ahead := log[..k];
    AheadIffBeats(q, ops, r, k);
    ServedAreKnown(q, ops);
    DistinctPrefix(log, k);
    CountDistinct(ahead);
    forall x | x in ahead
      ensures GoesFirst(x, r) && (x in q.entries || x.arrivalSeq >= q.nextSeq)
    {
      var i :| 0 <= i < k && log[i] == x;
      BeatsMeansGoesFirst(x, r);
    }
    forall x | x in q.entries && GoesFirst(x, r) ensures x in ahead {
      BeatsMeansGoesFirst(x, r);
    }
    AheadSplits(q, ahead, r);
  }

  // Looked at right after r is accepted, the entries ahead of it are exactly
  // those of equal or higher priority that were already queued.
  lemma AheadOfNewcomer<R(!new)>(q: QueueState<R>, p: Priority, body: R)
    requires WellFormed(q) && !Full(q)
    ensures var q' := Pushed(q, p, body);
            && WellFormed(q') && Stamped(q, p, body) in q'.entries
            && PresentAhead(q', Stamped(q, p, body)) == set x | x in q.entries && (x.priority == p || MoreUrgent(x.priority, p))
  {
    var q' := Pushed(q, p, body);
    var r := Stamped(q, p, body);
    PushKeepsWellFormed(q, p, body);
    assert q'.entries[|q.entries|] == r;
    forall x | x in q.entries
      ensures x in q'.entries && (GoesFirst(x, r) <==> x.priority == p || MoreUrgent(x.priority, p))
    {
      var i :| 0 <= i < |q.entries| && q.entries[i] == x;
      assert q'.entries[i] == x;
    }
    assert !GoesFirst(r, r);
  }

  // Requests of one priority leave in the order they were accepted.
  lemma FifoWithinPriority<R(!new)>(q: QueueState<R>, ops: seq<Op<R>>, first: Request<R>, second: Request<R>, k: nat)
    requires WellFormed(q) && first in q.entries && second in q.entries
    requires first.priority == second.priority && first.arrivalSeq < second.arrivalSeq
    requires k < |Served(q, ops)| && Served(q, ops)[k] == second
    ensures first in Served(q, ops)[..k]
  {
    AheadIffBeats(q, ops, second, k);
  }
}
