// Several threads inside `record_failure` at once
// (crates/inference-remote-core/src/circuit_breaker.rs:114-121), at the grain of
// its atomic operations: one fetch_add, one load, one store.
module BreakerRaces {
  import opened Wrappers
  import opened Breaker

  datatype Thread =
    | Ready                           // before the fetch_add
    | Reached(n: u32)                 // n reached the threshold; load comes next
    | SawZero(n: u32)                 // loaded "not open"; store comes next
    | Done(n: u32, stored: u64)       // returned; 0 if it stored nothing

  datatype Race = Race(failures: u32, openedAt: u64, threads: seq<Thread>)

  // Thread i takes its next atomic step; `now` is the clock it reads, if any.
  datatype Turn = Turn(thread: nat, now: nat)

  function Step(c: Config, s: Race, t: Turn): Race {
    if t.thread >= |s.threads| then s
    else
      match s.threads[t.thread]
      case Ready =>
        var n := (s.failures + 1) % U32_SPAN;
        s.(failures := n, threads := s.threads[t.thread := if n >= c.failureThreshold then Reached(n) else Done(n, 0)])
      case Reached(n) =>
        s.(threads := s.threads[t.thread := if s.openedAt == 0 then SawZero(n) else Done(n, 0)])
      case SawZero(n) =>
        s.(openedAt := AsU64(t.now), threads := s.threads[t.thread := Done(n, AsU64(t.now))])
      case Done(_, _) => s
  }

  function Run(c: Config, s: Race, turns: seq<Turn>): Race {
    if turns == [] then s else Step(c, Run(c, s, turns[..|turns| - 1]), turns[|turns| - 1])
  }

  function Fresh(k: nat): Race {
    Race(0, 0, seq(k, _ => Ready))
  }

  // Only a storing turn reads the clock.
  predicate Stores(s: Race, t: Turn) {
    t.thread < |s.threads| && s.threads[t.thread].SawZero?
  }

  // No stamp is taken at the reading zero, which means "not open".
  predicate ClockRuns(c: Config, s: Race, turns: seq<Turn>) {
    turns == []
    || (var n := |turns| - 1;
        && ClockRuns(c, s, turns[..n])
        && (Stores(Run(c, s, turns[..n]), turns[n]) ==> AsU64(turns[n].now) != 0))
  }

  // ---- Counting ------------------------------------------------------------

  function Started(threads: seq<Thread>): nat {
    if threads == [] then 0 else (if threads[0].Ready? then 0 else 1) + Started(threads[1..])
  }

  predicate AtThreshold(c: Config, t: Thread) {
    !t.Ready? && t.n >= c.failureThreshold
  }

  // Threads whose fetch_add reached the threshold.
  function ReachedBy(c: Config, threads: seq<Thread>): nat {
    if threads == [] then 0 else (if AtThreshold(c, threads[0]) then 1 else 0) + ReachedBy(c, threads[1..])
  }

  // How many of k calls reach it, whatever the interleaving.
  function Reaching(c: Config, k: nat): nat {
    if k == 0 then 0 else Reaching(c, k - 1) + (if Stamps(c, k) then 1 else 0)
  }

  lemma {:induction false} StartedUpdate(threads: seq<Thread>, i: nat, t: Thread)
    requires i < |threads|
    ensures Started(threads[i := t]) + (if threads[i].Ready? then 0 else 1) == Started(threads) + (if t.Ready? then 0 else 1)
  {
    if i == 0 {
      assert threads[0 := t][1..] == threads[1..];
    } else {
      assert threads[i := t][1..] == threads[1..][i - 1 := t];
      StartedUpdate(threads[1..], i - 1, t);
    }
  }

  lemma {:induction false} ReachedUpdate(c: Config, threads: seq<Thread>, i: nat, t: Thread)
    requires i < |threads|
    ensures ReachedBy(c, threads[i := t]) + (if AtThreshold(c, threads[i]) then 1 else 0)
         == ReachedBy(c, threads) + (if AtThreshold(c, t) then 1 else 0)
  {
    if i == 0 {
      assert threads[0 := t][1..] == threads[1..];
    } else {
      assert threads[i := t][1..] == threads[1..][i - 1 := t];
      ReachedUpdate(c, threads[1..], i - 1, t);
    }
  }

  lemma {:induction false} StartedExtremes(threads: seq<Thread>)
    ensures Started(threads) <= |threads|
    ensures (forall i :: 0 <= i < |threads| ==> threads[i].Ready?) ==> Started(threads) == 0
    ensures (forall i :: 0 <= i < |threads| ==> !threads[i].Ready?) ==> Started(threads) == |threads|
  {
    if threads != [] {
      StartedExtremes(threads[1..]);
    }
  }

  lemma {:induction false} ReachedExtremes(c: Config, threads: seq<Thread>)
    ensures ReachedBy(c, threads) > 0 <==> exists i :: 0 <= i < |threads| && AtThreshold(c, threads[i])
  {
    if threads != [] {
      ReachedExtremes(c, threads[1..]);
      if AtThreshold(c, threads[0]) {
      } else if ReachedBy(c, threads[1..]) > 0 {
        var i :| 0 <= i < |threads[1..]| && AtThreshold(c, threads[1..][i]);
        assert AtThreshold(c, threads[i + 1]);
      } else {
        assert forall i :: 0 < i < |threads| ==> threads[i] == threads[1..][i - 1];
      }
    }
  }

  lemma TwoReached(c: Config, threads: seq<Thread>, i: nat, j: nat)
    requires i < |threads| && j < |threads| && i != j
    requires AtThreshold(c, threads[i]) && AtThreshold(c, threads[j])
    ensures ReachedBy(c, threads) >= 2
  {
    ReachedUpdate(c, threads, i, Ready);
    assert AtThreshold(c, threads[i := Ready][j]);
    ReachedExtremes(c, threads[i := Ready]);
  }

  lemma {:induction false} ReachingGrows(c: Config, j: nat, k: nat)
    requires j <= k
    ensures Reaching(c, j) <= Reaching(c, k)
  {
    if j < k {
      ReachingGrows(c, j, k - 1);
    }
  }

  // As long as the counter does not wrap, all calls from the threshold-th on.
  lemma {:induction false} ReachingCount(c: Config, k: nat)
    requires k < U32_SPAN
    ensures Reaching(c, k) == if k < Threshold(c) then 0 else k - Threshold(c) + 1
  {
    if k > 0 {
      ReachingCount(c, k - 1);
    }
  }

  lemma SomeReach(c: Config, k: nat)
    ensures Reaching(c, k) > 0 <==> k >= Threshold(c)
  {
    if k < Threshold(c) {
      ReachingCount(c, k);
    } else {
      ReachingCount(c, Threshold(c));
      ReachingGrows(c, Threshold(c), k);
    }
  }

  // ---- The invariant -------------------------------------------------------

  predicate ThreadOk(c: Config, t: Thread, openedAt: u64) {
    match t
    case Ready => true
    case Reached(n) => n >= c.failureThreshold
    case SawZero(n) => n >= c.failureThreshold
    case Done(n, stored) =>
      && (stored != 0 ==> n >= c.failureThreshold)
      && (n >= c.failureThreshold ==> openedAt != 0)
  }

  ghost predicate ThreadsOk(c: Config, s: Race) {
    forall i :: 0 <= i < |s.threads| ==> ThreadOk(c, s.threads[i], s.openedAt)
  }

  ghost predicate SomeoneStored(threads: seq<Thread>, stamp: u64) {
    exists i :: 0 <= i < |threads| && threads[i].Done? && threads[i].stored == stamp
  }

  ghost predicate CountsOk(c: Config, s: Race) {
    && s.failures == Started(s.threads) % U32_SPAN
    && ReachedBy(c, s.threads) == Reaching(c, Started(s.threads))
  }

  ghost predicate Inv(c: Config, s: Race) {
    CountsOk(c, s) && ThreadsOk(c, s) && (s.openedAt != 0 ==> SomeoneStored(s.threads, s.openedAt))
  }

  predicate Moves(s: Race, t: Turn) {
    t.thread < |s.threads| && !s.threads[t.thread].Done?
  }

  lemma StepKeepsStored(c: Config, s: Race, t: Turn)
    requires Moves(s, t) && (s.openedAt != 0 ==> SomeoneStored(s.threads, s.openedAt))
    ensures Step(c, s, t).openedAt != 0 ==> SomeoneStored(Step(c, s, t).threads, Step(c, s, t).openedAt)
  {
    var s' := Step(c, s, t);
    if Stores(s, t) {
      assert s'.threads[t.thread].stored == s'.openedAt;
    } else if s.openedAt != 0 {
      var j :| 0 <= j < |s.threads| && s.threads[j].Done? && s.threads[j].stored == s.openedAt;
      assert s'.threads[j] == s.threads[j];
    }
  }

  lemma StepKeepsThreads(c: Config, s: Race, t: Turn)
    requires Moves(s, t) && ThreadsOk(c, s) && (Stores(s, t) ==> AsU64(t.now) != 0)
    ensures ThreadsOk(c, Step(c, s, t))
  {
    var s' := Step(c, s, t);
    assert ThreadOk(c, s.threads[t.thread], s.openedAt);
    forall i | 0 <= i < |s.threads|
      ensures ThreadOk(c, s'.threads[i], s'.openedAt)
    {
      assert ThreadOk(c, s.threads[i], s.openedAt);
    }
  }

  lemma StepKeepsCounts(c: Config, s: Race, t: Turn)
    requires Moves(s, t) && CountsOk(c, s)
    ensures CountsOk(c, Step(c, s, t))
  {
    var after := Step(c, s, t).threads[t.thread];
    StartedUpdate(s.threads, t.thread, after);
    ReachedUpdate(c, s.threads, t.thread, after);
    WrappingCount(Started(s.threads));
  }

  // Only a call whose fetch_add reached the threshold ever stores a stamp, and
  // a non-zero stamp never goes back to zero.
  lemma StepKeepsInv(c: Config, s: Race, t: Turn)
    requires Inv(c, s) && (Stores(s, t) ==> AsU64(t.now) != 0)
    ensures Inv(c, Step(c, s, t))
    ensures s.openedAt != 0 ==> Step(c, s, t).openedAt != 0
    ensures Step(c, s, t).openedAt != s.openedAt ==>
              Stores(s, t) && s.threads[t.thread].n >= c.failureThreshold
  {
    if Moves(s, t) {
      assert ThreadOk(c, s.threads[t.thread], s.openedAt);
      StepKeepsStored(c, s, t);
      StepKeepsThreads(c, s, t);
      StepKeepsCounts(c, s, t);
    }
  }

  lemma FreshIsInv(c: Config, k: nat)
    ensures Inv(c, Fresh(k))
  {
    StartedExtremes(Fresh(k).threads);
    ReachedExtremes(c, Fresh(k).threads);
  }

  lemma {:induction false} RunKeepsInv(c: Config, k: nat, turns: seq<Turn>)
    requires ClockRuns(c, Fresh(k), turns)
    ensures Inv(c, Run(c, Fresh(k), turns)) && |Run(c, Fresh(k), turns).threads| == k
  {
    if turns == [] {
      FreshIsInv(c, k);
    } else {
      var n := |turns| - 1;
      RunKeepsInv(c, k, turns[..n]);
      StepKeepsInv(c, Run(c, Fresh(k), turns[..n]), turns[n]);
    }
  }

  ghost predicate AllDone(s: Race) {
    forall i :: 0 <= i < |s.threads| ==> s.threads[i].Done?
  }

  lemma StampIsByReached(c: Config, s: Race) returns (i: nat)
    requires Inv(c, s) && s.openedAt != 0
    ensures i < |s.threads| && s.threads[i].Done? && s.threads[i].stored == s.openedAt && AtThreshold(c, s.threads[i])
  {
    i :| 0 <= i < |s.threads| && s.threads[i].Done? && s.threads[i].stored == s.openedAt;
    assert ThreadOk(c, s.threads[i], s.openedAt);
  }

  // For every interleaving of k calls, once all have returned: the counter has
  // counted them all, and the breaker is open exactly if k reached the threshold;
  // its stamp is one stored by a call that had itself reached the threshold.
  lemma QuiescentOutcome(c: Config, k: nat, turns: seq<Turn>)
    requires ClockRuns(c, Fresh(k), turns)
    requires AllDone(Run(c, Fresh(k), turns))
    ensures var s := Run(c, Fresh(k), turns);
            && s.failures == k % U32_SPAN
            && (s.openedAt != 0 <==> k >= Threshold(c))
            && (s.openedAt != 0 ==> exists i :: 0 <= i < |s.threads| && s.threads[i].stored == s.openedAt && s.threads[i].n >= c.failureThreshold)
  {
    var s := Run(c, Fresh(k), turns);
    RunKeepsInv(c, k, turns);
    StartedExtremes(s.threads);
    SomeReach(c, k);
    ReachedExtremes(c, s.threads);
    if s.openedAt != 0 {
      var i := StampIsByReached(c, s);
    }
    if ReachedBy(c, s.threads) > 0 {
      var j :| 0 <= j < |s.threads| && AtThreshold(c, s.threads[j]);
      assert ThreadOk(c, s.threads[j], s.openedAt);
    }
  }

  // Fewer calls than the threshold never open the breaker, not even for a while.
  lemma BelowThreshold(c: Config, k: nat, turns: seq<Turn>)
    requires ClockRuns(c, Fresh(k), turns) && k < Threshold(c)
    ensures Run(c, Fresh(k), turns).openedAt == 0
  {
    var s := Run(c, Fresh(k), turns);
    RunKeepsInv(c, k, turns);
    StartedExtremes(s.threads);
    SomeReach(c, Started(s.threads));
    ReachedExtremes(c, s.threads);
    if s.openedAt != 0 {
      var i := StampIsByReached(c, s);
    }
  }

  // ---- When the stamp can move ---------------------------------------------

  // The last turn of this interleaving of k calls overwrites a stamp.
  ghost predicate Overwrites(c: Config, k: nat, turns: seq<Turn>) {
    && turns != [] && ClockRuns(c, Fresh(k), turns)
    && var before := Run(c, Fresh(k), turns[..|turns| - 1]);
       before.openedAt != 0 && Run(c, Fresh(k), turns).openedAt != before.openedAt
  }

  lemma OverwritingTakesTwo(c: Config, k: nat, turns: seq<Turn>)
    requires Overwrites(c, k, turns)
    ensures Reaching(c, k) >= 2
  {
    var n := |turns| - 1;
    var s := Run(c, Fresh(k), turns[..n]);
    RunKeepsInv(c, k, turns[..n]);
    StepKeepsInv(c, s, turns[n]);
    var i := StampIsByReached(c, s);
    TwoReached(c, s.threads, i, turns[n].thread);
    StartedExtremes(s.threads);
    ReachingGrows(c, Started(s.threads), k);
  }

  lemma {:induction false} LastReaching(c: Config, k: nat) returns (j: nat)
    requires Reaching(c, k) > 0
    ensures 0 < j <= k && Stamps(c, j) && Reaching(c, j - 1) == Reaching(c, k) - 1
  {
    if Stamps(c, k) {
      j := k;
    } else {
      j := LastReaching(c, k - 1);
    }
  }

  // The first j calls do their fetch_add, in order.
  function Opening(j: nat): seq<Turn> {
    seq(j, i requires 0 <= i => Turn(i, 1))
  }

  function Counted(c: Config, i: nat): Thread {
    if Stamps(c, i + 1) then Reached((i + 1) % U32_SPAN) else Done((i + 1) % U32_SPAN, 0)
  }

  function Opened(c: Config, k: nat, j: nat): Race {
    Race(j % U32_SPAN, 0, seq(k, i requires 0 <= i => if i < j then Counted(c, i) else Ready))
  }

  lemma {:induction false} RunOpening(c: Config, k: nat, j: nat)
    requires j <= k
    ensures Run(c, Fresh(k), Opening(j)) == Opened(c, k, j) && ClockRuns(c, Fresh(k), Opening(j))
  {
    if j == 0 {
      assert Fresh(k).threads == Opened(c, k, 0).threads;
    } else {
      assert Opening(j)[..j - 1] == Opening(j - 1);
      RunOpening(c, k, j - 1);
      WrappingCount(j - 1);
      assert Step(c, Opened(c, k, j - 1), Turn(j - 1, 1)).threads == Opened(c, k, j).threads;
    }
  }

  lemma RunOneMore(c: Config, s: Race, turns: seq<Turn>, t: Turn)
    requires ClockRuns(c, s, turns) && AsU64(t.now) != 0
    ensures Run(c, s, turns + [t]) == Step(c, Run(c, s, turns), t) && ClockRuns(c, s, turns + [t])
  {
    assert (turns + [t])[..|turns|] == turns;
  }

  // Both loads happen before either store.
  lemma TwoStores(c: Config, k: nat, turns: seq<Turn>, x: nat, y: nat)
    requires ClockRuns(c, Fresh(k), turns)
    requires var s := Run(c, Fresh(k), turns);
             && s.openedAt == 0 && x < |s.threads| && y < |s.threads| && x != y
             && s.threads[x].Reached? && s.threads[y].Reached?
    ensures Overwrites(c, k, turns + [Turn(x, 1)] + [Turn(y, 1)] + [Turn(x, 1)] + [Turn(y, 2)])
  {
    var s := Fresh(k);
    var t1, t2 := turns + [Turn(x, 1)], turns + [Turn(x, 1)] + [Turn(y, 1)];
    var t3 := t2 + [Turn(x, 1)];
    RunOneMore(c, s, turns, Turn(x, 1));
    RunOneMore(c, s, t1, Turn(y, 1));
    RunOneMore(c, s, t2, Turn(x, 1));
    RunOneMore(c, s, t3, Turn(y, 2));
    assert (t3 + [Turn(y, 2)])[..|t3|] == t3;
  }

  lemma OverwritingWitness(c: Config, k: nat) returns (turns: seq<Turn>)
    requires Reaching(c, k) >= 2
    ensures Overwrites(c, k, turns)
  {
    var y := LastReaching(c, k);
    var x := LastReaching(c, y - 1);
    RunOpening(c, k, y);
    TwoStores(c, k, Opening(y), x - 1, y - 1);
    turns := Opening(y) + [Turn(x - 1, 1)] + [Turn(y - 1, 1)] + [Turn(x - 1, 1)] + [Turn(y - 1, 2)];
  }

  // Unlike in a sequential run, the stamp of k concurrent failures can still move
  // after the breaker has opened, exactly when two of them reach the threshold:
  // when there are more than the threshold, while the counter does not wrap.
  lemma StampMovesExactly(c: Config, k: nat)
    ensures (exists turns :: Overwrites(c, k, turns)) <==> Reaching(c, k) >= 2
    ensures k < U32_SPAN ==> (Reaching(c, k) >= 2 <==> k > Threshold(c))
  {
    if k < U32_SPAN {
      ReachingCount(c, k);
    }
    if exists turns :: Overwrites(c, k, turns) {
      var turns :| Overwrites(c, k, turns);
      OverwritingTakesTwo(c, k, turns);
    }
    if Reaching(c, k) >= 2 {
      var turns := OverwritingWitness(c, k);
    }
  }

  // ---- What the races are races of -----------------------------------------

  // Taken without interruption, the three steps of one call are `record_failure`.
  lemma SerialCall(c: Config, s: Race, i: nat, x: nat, y: nat, now: nat, forced: Option<nat>)
    requires i < |s.threads| && s.threads[i] == Ready
    ensures var s' := Step(c, Step(c, Step(c, s, Turn(i, x)), Turn(i, y)), Turn(i, now));
            && BreakerState(s'.failures, s'.openedAt, forced) == AfterFailure(c, BreakerState(s.failures, s.openedAt, forced), now)
            && s'.threads[i].Done?
  {
  }

  // A stamp is always the reading of some turn that stored it.
  lemma {:induction false} StampIsAReading(c: Config, s: Race, turns: seq<Turn>)
    requires s.openedAt == 0 && Run(c, s, turns).openedAt != 0
    ensures exists j :: 0 <= j < |turns| && Stores(Run(c, s, turns[..j]), turns[j])
                        && Run(c, s, turns).openedAt == AsU64(turns[j].now)
  {
    var n := |turns| - 1;
    if Stores(Run(c, s, turns[..n]), turns[n]) {
      assert Run(c, s, turns).openedAt == AsU64(turns[n].now);
    } else {
      StampIsAReading(c, s, turns[..n]);
      var j :| 0 <= j < n && Stores(Run(c, s, turns[..n][..j]), turns[..n][j])
               && Run(c, s, turns[..n]).openedAt == AsU64(turns[..n][j].now);
      assert turns[..n][..j] == turns[..j] && turns[..n][j] == turns[j];
    }
  }
}
