// The fixed-window rate limiter (crates/inference-remote-core/src/rate_limit.rs).
// Instants are nanosecond counts on a monotone clock.
module RateLimit {
  import opened Wrappers

  const WINDOW: nat := 60_000_000_000

  datatype Limits = Limits(requestsPerMinute: Option<nat>, tokensPerMinute: Option<nat>)

  datatype Window = Window(startedAt: Option<nat>, requests: nat, tokens: nat)

  // One acquire.  The clock is read once to decide whether the window is over
  // and a second time when a new one is started.
  datatype Call = Call(checkedAt: nat, resetAt: nat, requests: nat, tokens: nat)

  datatype Permit = Permit(requests: nat, tokens: nat)

  datatype Denied = RequestsExhausted | TokensExhausted

  // A grow-only counter: per node, how much that node has counted.
  type GCounter = map<string, nat>

  function Count(c: GCounter, node: string): nat {
    if node in c then c[node] else 0
  }

  function Max(a: nat, b: nat): nat {
    if a < b then b else a
  }

  function Merge(c: GCounter, delta: GCounter): GCounter {
    map n | n in c.Keys + delta.Keys :: Max(Count(c, n), Count(delta, n))
  }

  // ---- Specification state -------------------------------------------------

  datatype LimiterState = LimiterState(window: Window, requestsSeen: GCounter, tokensSeen: GCounter)

  const INITIAL := LimiterState(Window(None, 0, 0), map[], map[])

  predicate NeedsReset(w: Window, now: nat) {
    w.startedAt.None? || now - w.startedAt.value >= WINDOW
  }

  function Rotated(s: LimiterState, call: Call): LimiterState {
    if NeedsReset(s.window, call.checkedAt) then LimiterState(Window(Some(call.resetAt), 0, 0), map[], map[]) else s
  }

  predicate Exceeds(used: nat, amount: nat, cap: Option<nat>) {
    cap.Some? && used + amount > cap.value
  }

  function Verdict(l: Limits, w: Window, call: Call): Option<Denied> {
    if Exceeds(w.requests, call.requests, l.requestsPerMinute) then Some(RequestsExhausted)
    else if Exceeds(w.tokens, call.tokens, l.tokensPerMinute) then Some(TokensExhausted)
    else None
  }

  function Charged(node: string, s: LimiterState, call: Call): LimiterState {
    LimiterState(s.window.(requests := s.window.requests + call.requests, tokens := s.window.tokens + call.tokens),
                 s.requestsSeen[node := Count(s.requestsSeen, node) + call.requests],
                 s.tokensSeen[node := Count(s.tokensSeen, node) + call.tokens])
  }

  function Acquired(node: string, l: Limits, s: LimiterState, call: Call): LimiterState {
    var r := Rotated(s, call);
    if Verdict(l, r.window, call).None? then Charged(node, r, call) else r
  }

  // ---- The actor -----------------------------------------------------------

  class RateLimiter {
    const nodeId: string
    const limits: Limits
    var window: Window
    var requestsCounter: GCounter
    var tokensCounter: GCounter

    function State(): LimiterState
      reads this
    {
      LimiterState(window, requestsCounter, tokensCounter)
    }

    constructor (nodeId: string, limits: Limits)
      ensures this.nodeId == nodeId && this.limits == limits && State() == INITIAL
    {
      this.nodeId := nodeId;
      this.limits := limits;
      window, requestsCounter, tokensCounter := Window(None, 0, 0), map[], map[];
    }

    method MergeRemoteDeltaRequests(delta: GCounter)
      modifies this
      ensures State() == old(State()).(requestsSeen := Merge(old(requestsCounter), delta))
    {
      requestsCounter := Merge(requestsCounter, delta);
    }

    method MergeRemoteDeltaTokens(delta: GCounter)
      modifies this
      ensures State() == old(State()).(tokensSeen := Merge(old(tokensCounter), delta))
    {
      tokensCounter := Merge(tokensCounter, delta);
    }

    method RotateWindowIfNeeded(call: Call)
      modifies this
      ensures State() == Rotated(old(State()), call)
    {
      var needsReset := true;
      if window.startedAt.Some? {
        needsReset := call.checkedAt - window.startedAt.value >= WINDOW;
      }
      if needsReset {
        window := Window(Some(call.resetAt), 0, 0);
        requestsCounter, tokensCounter := map[], map[];
      }
    }

    // A denied call may start a new window but charges neither counter.
    method Acquire(call: Call) returns (r: Result<Permit, Denied>)
      modifies this
      ensures State() == Acquired(nodeId, limits, old(State()), call)
      ensures r == match Verdict(limits, Rotated(old(State()), call).window, call)
                   case None => Ok(Permit(call.requests, call.tokens))
                   case Some(why) => Err(why)
      ensures r.Err? ==> State() == Rotated(old(State()), call)
    {
      RotateWindowIfNeeded(call);
      if limits.requestsPerMinute.Some? {
        if window.requests + call.requests > limits.requestsPerMinute.value {
          return Err(RequestsExhausted);
        }
      }
      if limits.tokensPerMinute.Some? {
        if window.tokens + call.tokens > limits.tokensPerMinute.value {
          return Err(TokensExhausted);
        }
      }
      window := window.(requests := window.requests + call.requests, tokens := window.tokens + call.tokens);
      requestsCounter := requestsCounter[nodeId := Count(requestsCounter, nodeId) + call.requests];
      tokensCounter := tokensCounter[nodeId := Count(tokensCounter, nodeId) + call.tokens];
      r := Ok(Permit(call.requests, call.tokens));
    }
  }

  // ---- Runs ----------------------------------------------------------------

  datatype Event = Acquire(call: Call) | MergeRequests(delta: GCounter) | MergeTokens(delta: GCounter)

  function Apply(node: string, l: Limits, s: LimiterState, e: Event): LimiterState {
    match e
    case Acquire(call) => Acquired(node, l, s, call)
    case MergeRequests(d) => s.(requestsSeen := Merge(s.requestsSeen, d))
    case MergeTokens(d) => s.(tokensSeen := Merge(s.tokensSeen, d))
  }

  function Final(node: string, l: Limits, s: LimiterState, events: seq<Event>): LimiterState
    decreases |events|
  {
    if events == [] then s else Final(node, l, Apply(node, l, s, events[0]), events[1..])
  }

  // A granted permit, with the number of window changes before it.
  datatype Grant = Grant(at: nat, window: nat, requests: nat, tokens: nat)

  function NextWindow(s: LimiterState, index: nat, e: Event): nat {
    if e.Acquire? && NeedsReset(s.window, e.call.checkedAt) then index + 1 else index
  }

  function GrantOf(l: Limits, s: LimiterState, index: nat, e: Event): seq<Grant> {
    if e.Acquire? && Verdict(l, Rotated(s, e.call).window, e.call).None?
    then [Grant(e.call.checkedAt, NextWindow(s, index, e), e.call.requests, e.call.tokens)]
    else []
  }

  function Grants(node: string, l: Limits, s: LimiterState, index: nat, events: seq<Event>): seq<Grant>
    decreases |events|
  {
    if events == [] then []
    else GrantOf(l, s, index, events[0]) + Grants(node, l, Apply(node, l, s, events[0]), NextWindow(s, index, events[0]), events[1..])
  }

  // Successive clock readings never go back.
  ghost predicate Monotone(events: seq<Event>, clock: nat)
    decreases |events|
  {
    events == []
    || (if events[0].Acquire?
        then clock <= events[0].call.checkedAt <= events[0].call.resetAt && Monotone(events[1..], events[0].call.resetAt)
        else Monotone(events[1..], clock))
  }

  // Both budgets are handled alike.
  datatype Budget = Requests | Tokens

  function Amount(b: Budget, g: Grant): nat {
    if b == Requests then g.requests else g.tokens
  }

  function Used(b: Budget, w: Window): nat {
    if b == Requests then w.requests else w.tokens
  }

  function Cap(b: Budget, l: Limits): Option<nat> {
    if b == Requests then l.requestsPerMinute else l.tokensPerMinute
  }

  function WindowTotal(b: Budget, gs: seq<Grant>, window: nat): nat {
    if gs == [] then 0
    else (if gs[0].window == window then Amount(b, gs[0]) else 0) + WindowTotal(b, gs[1..], window)
  }

  // Everything granted at an instant in [lo, hi).
  function IntervalTotal(b: Budget, gs: seq<Grant>, lo: nat, hi: nat): nat {
    if gs == [] then 0
    else (if lo <= gs[0].at < hi then Amount(b, gs[0]) else 0) + IntervalTotal(b, gs[1..], lo, hi)
  }

  // ---- Per window ----------------------------------------------------------

  lemma {:induction false} WindowsDoNotGoBack(node: string, l: Limits, s: LimiterState, index: nat, events: seq<Event>)
    ensures forall i :: 0 <= i < |Grants(node, l, s, index, events)| ==> Grants(node, l, s, index, events)[i].window >= index
    decreases |events|
  {
    if events != [] {
      WindowsDoNotGoBack(node, l, Apply(node, l, s, events[0]), NextWindow(s, index, events[0]), events[1..]);
    }
  }

  lemma {:induction false} NoGrantsNoTotal(b: Budget, gs: seq<Grant>, window: nat)
    requires forall i :: 0 <= i < |gs| ==> gs[i].window != window
    ensures WindowTotal(b, gs, window) == 0
  {
    if gs != [] {
      NoGrantsNoTotal(b, gs[1..], window);
    }
  }

  lemma PrependTotal(b: Budget, head: seq<Grant>, tail: seq<Grant>, window: nat)
    requires |head| <= 1
    ensures WindowTotal(b, head + tail, window)
            == (if head != [] && head[0].window == window then Amount(b, head[0]) else 0) + WindowTotal(b, tail, window)
  {
    if head == [] {
      assert head + tail == tail;
    } else {
      assert (head + tail)[1..] == tail;
    }
  }

  // The counters of a window are the sum of what was granted in it: starting
  // from a fresh index, the total for the current window is what is in use.
  lemma {:induction false} CountersAreGrantTotals(node: string, l: Limits, s: LimiterState, index: nat, events: seq<Event>, b: Budget)
    ensures var last := LastWindow(node, l, s, index, events);
            Used(b, Final(node, l, s, events).window)
            == WindowTotal(b, Grants(node, l, s, index, events), last) + (if last == index then Used(b, s.window) else 0)
    decreases |events|
  {
    if events != [] {
      var s', index' := Apply(node, l, s, events[0]), NextWindow(s, index, events[0]);
      CountersAreGrantTotals(node, l, s', index', events[1..], b);
      LastWindowAtLeast(node, l, s', index', events[1..]);
      PrependTotal(b, GrantOf(l, s, index, events[0]), Grants(node, l, s', index', events[1..]),
                   LastWindow(node, l, s, index, events));
    }
  }

  function LastWindow(node: string, l: Limits, s: LimiterState, index: nat, events: seq<Event>): nat
    decreases |events|
  {
    if events == [] then index
    else LastWindow(node, l, Apply(node, l, s, events[0]), NextWindow(s, index, events[0]), events[1..])
  }

  lemma {:induction false} LastWindowAtLeast(node: string, l: Limits, s: LimiterState, index: nat, events: seq<Event>)
    ensures LastWindow(node, l, s, index, events) >= index
    decreases |events|
  {
    if events != [] {
      LastWindowAtLeast(node, l, Apply(node, l, s, events[0]), NextWindow(s, index, events[0]), events[1..]);
    }
  }

  // Per-window safety, for each budget and every window of a run.
  lemma {:induction false} WindowWithinCap(node: string, l: Limits, s: LimiterState, index: nat, events: seq<Event>, b: Budget, window: nat)
    requires Cap(b, l).Some? && Used(b, s.window) <= Cap(b, l).value
    ensures WindowTotal(b, Grants(node, l, s, index, events), window)
            + (if window == index then Used(b, s.window) else 0) <= Cap(b, l).value
    decreases |events|
  {
    if events != [] {
      var s', index' := Apply(node, l, s, events[0]), NextWindow(s, index, events[0]);
      var tail := Grants(node, l, s', index', events[1..]);
      WindowWithinCap(node, l, s', index', events[1..], b, window);
      if window < index' {
        WindowsDoNotGoBack(node, l, s', index', events[1..]);
        NoGrantsNoTotal(b, tail, window);
      }
      PrependTotal(b, GrantOf(l, s, index, events[0]), tail, window);
    }
  }

  // ---- Across windows ------------------------------------------------------

  // d windows later means at least d window lengths after this one began.
  ghost predicate Spaced(g: Grant, start: nat, index: nat) {
    g.window > index ==> g.at >= start + WINDOW * (g.window - index)
  }

  lemma {:induction false} LaterGrantsAreSpaced(node: string, l: Limits, s: LimiterState, index: nat, events: seq<Event>, clock: nat)
    requires s.window.startedAt.Some? && Monotone(events, clock)
    ensures forall i :: 0 <= i < |Grants(node, l, s, index, events)| ==>
              && Grants(node, l, s, index, events)[i].at >= clock
              && Grants(node, l, s, index, events)[i].window >= index
              && Spaced(Grants(node, l, s, index, events)[i], s.window.startedAt.value, index)
    decreases |events|
  {
    if events != [] {
      var e := events[0];
      var s', index' := Apply(node, l, s, e), NextWindow(s, index, e);
      var tail := Grants(node, l, s', index', events[1..]);
      LaterGrantsAreSpaced(node, l, s', index', events[1..], if e.Acquire? then e.call.resetAt else clock);
      forall i | 0 <= i < |tail|
        ensures Spaced(tail[i], s.window.startedAt.value, index)
      {
        assert Spaced(tail[i], s'.window.startedAt.value, index');
        if index' == index + 1 {
          SpacingShifts(s.window.startedAt.value, s'.window.startedAt.value, tail[i].window - index');
        }
      }
      assert Grants(node, l, s, index, events) == GrantOf(l, s, index, e) + tail;
    }
  }

  lemma SpacingShifts(start: nat, next: nat, d: int)
    requires next >= start + WINDOW
    ensures next + WINDOW * d >= start + WINDOW * (d + 1)
  {
  }

  // Two grants g before h: more windows apart means further apart in time.
  ghost predicate Apart(g: Grant, h: Grant) {
    && g.window <= h.window
    && g.at <= h.at
    && (g.window < h.window ==> h.at > g.at + WINDOW * (h.window - g.window - 1))
  }

  lemma {:induction false} GrantsAreApart(node: string, l: Limits, s: LimiterState, index: nat, events: seq<Event>, clock: nat)
    requires Monotone(events, clock) && (s.window.startedAt.Some? ==> s.window.startedAt.value <= clock)
    ensures forall i, j :: 0 <= i < j < |Grants(node, l, s, index, events)| ==>
              Apart(Grants(node, l, s, index, events)[i], Grants(node, l, s, index, events)[j])
    decreases |events|
  {
    if events != [] {
      var e := events[0];
      var s', index' := Apply(node, l, s, e), NextWindow(s, index, e);
      var head, tail := GrantOf(l, s, index, e), Grants(node, l, s', index', events[1..]);
      var clock' := if e.Acquire? then e.call.resetAt else clock;
      GrantsAreApart(node, l, s', index', events[1..], clock');
      if head != [] {
        LaterGrantsAreSpaced(node, l, s', index', events[1..], clock');
        var start := s'.window.startedAt.value;
        assert head[0].at < start + WINDOW;
        forall j | 0 <= j < |tail|
          ensures Apart(head[0], tail[j])
        {
          assert Spaced(tail[j], start, index');
          SpacedMeansApart(head[0], tail[j], start);
        }
      }
      assert Grants(node, l, s, index, events) == head + tail;
    }
  }

  lemma SpacedMeansApart(g: Grant, h: Grant, start: nat)
    requires g.at < start + WINDOW && g.at <= h.at && g.window <= h.window && Spaced(h, start, g.window)
    ensures Apart(g, h)
  {
  }

  function WindowsTotal(b: Budget, gs: seq<Grant>, first: nat, n: nat): nat {
    if n == 0 then 0 else WindowTotal(b, gs, first + n - 1) + WindowsTotal(b, gs, first, n - 1)
  }

  lemma {:induction false} WindowsTotalSplits(b: Budget, gs: seq<Grant>, first: nat, n: nat)
    requires gs != []
    ensures WindowsTotal(b, gs, first, n)
            == WindowsTotal(b, gs[1..], first, n) + (if first <= gs[0].window < first + n then Amount(b, gs[0]) else 0)
  {
    if n > 0 {
      WindowsTotalSplits(b, gs, first, n - 1);
    }
  }

  lemma {:induction false} IntervalWithinWindows(b: Budget, gs: seq<Grant>, lo: nat, hi: nat, first: nat, n: nat)
    requires forall i :: 0 <= i < |gs| && lo <= gs[i].at < hi ==> first <= gs[i].window < first + n
    ensures IntervalTotal(b, gs, lo, hi) <= WindowsTotal(b, gs, first, n)
  {
    if gs != [] {
      IntervalWithinWindows(b, gs[1..], lo, hi, first, n);
      WindowsTotalSplits(b, gs, first, n);
    }
  }

  lemma {:induction false} EachWindowCapped(b: Budget, gs: seq<Grant>, first: nat, n: nat, cap: nat)
    requires forall w: nat :: WindowTotal(b, gs, w) <= cap
    ensures WindowsTotal(b, gs, first, n) <= n * cap
  {
    if n > 0 {
      EachWindowCapped(b, gs, first, n - 1, cap);
      assert n * cap == (n - 1) * cap + cap;
    }
  }

  lemma {:induction false} NothingInInterval(b: Budget, gs: seq<Grant>, lo: nat, hi: nat)
    requires forall i :: 0 <= i < |gs| ==> !(lo <= gs[i].at < hi)
    ensures IntervalTotal(b, gs, lo, hi) == 0
  {
    if gs != [] {
      NothingInInterval(b, gs[1..], lo, hi);
    }
  }

  predicate Inside(g: Grant, lo: nat, k: nat) {
    lo <= g.at < lo + k * WINDOW
  }

  ghost predicate PairwiseApart(gs: seq<Grant>) {
    forall i, j :: 0 <= i < j < |gs| ==> Apart(gs[i], gs[j])
  }

  // Grants inside one interval of k window lengths lie in at most k + 1 windows.
  lemma IntervalSpansFewWindows(g: Grant, h: Grant, lo: nat, k: nat)
    requires Apart(g, h) && Inside(g, lo, k) && Inside(h, lo, k)
    ensures g.window <= h.window < g.window + (k + 1)
  {
  }

  lemma {:induction false} FirstInside(gs: seq<Grant>, lo: nat, k: nat) returns (first: Option<nat>)
    ensures first.None? ==> forall i :: 0 <= i < |gs| ==> !Inside(gs[i], lo, k)
    ensures first.Some? ==> first.value < |gs| && Inside(gs[first.value], lo, k)
                            && forall i :: 0 <= i < first.value ==> !Inside(gs[i], lo, k)
  {
    if gs == [] {
      return None;
    }
    if Inside(gs[0], lo, k) {
      return Some(0);
    }
    var rest := FirstInside(gs[1..], lo, k);
    if rest.None? {
      first := None;
    } else {
      first := Some(rest.value + 1);
      assert gs[rest.value + 1] == gs[1..][rest.value];
    }
    forall i | 0 <= i < |gs| && (first.None? || i < first.value)
      ensures !Inside(gs[i], lo, k)
    {
      if i > 0 {
        assert gs[i] == gs[1..][i - 1];
      }
    }
  }

  lemma InsideFewWindows(gs: seq<Grant>, lo: nat, k: nat, first: nat)
    requires PairwiseApart(gs) && first < |gs| && Inside(gs[first], lo, k)
    requires forall i :: 0 <= i < first ==> !Inside(gs[i], lo, k)
    ensures forall i :: 0 <= i < |gs| && Inside(gs[i], lo, k) ==>
              gs[first].window <= gs[i].window < gs[first].window + (k + 1)
  {
    forall i | 0 <= i < |gs| && Inside(gs[i], lo, k)
      ensures gs[first].window <= gs[i].window < gs[first].window + (k + 1)
    {
      if i != first {
        assert Apart(gs[first], gs[i]);
        IntervalSpansFewWindows(gs[first], gs[i], lo, k);
      }
    }
  }

  lemma FewWindowsBounded(b: Budget, gs: seq<Grant>, lo: nat, hi: nat, first: nat, n: nat, cap: nat)
    requires forall i :: 0 <= i < |gs| && lo <= gs[i].at < hi ==> first <= gs[i].window < first + n
    requires forall w: nat :: WindowTotal(b, gs, w) <= cap
    ensures IntervalTotal(b, gs, lo, hi) <= n * cap
  {
    IntervalWithinWindows(b, gs, lo, hi, first, n);
    EachWindowCapped(b, gs, first, n, cap);
  }

  lemma NonNegativeProduct(n: nat, cap: nat)
    ensures 0 <= n * cap
  {
  }

  lemma ApartMeansBounded(b: Budget, gs: seq<Grant>, lo: nat, k: nat, cap: nat)
    requires PairwiseApart(gs)
    requires forall w: nat :: WindowTotal(b, gs, w) <= cap
    ensures IntervalTotal(b, gs, lo, lo + k * WINDOW) <= (k + 1) * cap
  {
    var first := FirstInside(gs, lo, k);
    if first.None? {
      NothingInInterval(b, gs, lo, lo + k * WINDOW);
      NonNegativeProduct(k + 1, cap);
    } else {
      InsideFewWindows(gs, lo, k, first.value);
      FewWindowsBounded(b, gs, lo, lo + k * WINDOW, gs[first.value].window, k + 1, cap);
    }
  }

  // The sliding-window bound: in any interval of k minutes, at most (k + 1)
  // times the per-minute budget is granted, for requests and for tokens.
  lemma SlidingWindowBound(node: string, l: Limits, events: seq<Event>, b: Budget, lo: nat, k: nat)
    requires Cap(b, l).Some? && Monotone(events, 0)
    ensures IntervalTotal(b, Grants(node, l, INITIAL, 0, events), lo, lo + k * WINDOW) <= (k + 1) * Cap(b, l).value
  {
    var gs := Grants(node, l, INITIAL, 0, events);
    GrantsAreApart(node, l, INITIAL, 0, events, 0);
    forall w: nat
      ensures WindowTotal(b, gs, w) <= Cap(b, l).value
    {
      WindowWithinCap(node, l, INITIAL, 0, events, b, w);
    }
    ApartMeansBounded(b, gs, lo, k, Cap(b, l).value);
  }

  // ---- What fits is granted ------------------------------------------------

  // A minute has passed since the window began, or there is none yet.
  predicate WindowIsOver(startedAt: Option<nat>, now: nat) {
    startedAt.Some? ==> now >= startedAt.value + 60 * 1_000 * NANOS_PER_MILLI
  }

  // A window begins when the clock is read again after finding the last one over,
  // whether or not the call is granted.
  lemma WindowBegins(node: string, l: Limits, s: LimiterState, call: Call)
    ensures Acquired(node, l, s, call).window.startedAt
            == if WindowIsOver(s.window.startedAt, call.checkedAt) then Some(call.resetAt) else s.window.startedAt
  {
  }

  function Wanted(b: Budget, call: Call): nat {
    if b == Requests then call.requests else call.tokens
  }

  // There is no such budget, or what was granted in the window leaves room in it.
  predicate HasRoom(b: Budget, l: Limits, granted: nat, call: Call) {
    Cap(b, l).Some? ==> granted + Wanted(b, call) <= Cap(b, l).value
  }

  // What a run has granted so far in the window that the next call falls into.
  function GrantedInWindow(node: string, l: Limits, events: seq<Event>, b: Budget, call: Call): nat {
    if WindowIsOver(Final(node, l, INITIAL, events).window.startedAt, call.checkedAt) then 0
    else WindowTotal(b, Grants(node, l, INITIAL, 0, events), LastWindow(node, l, INITIAL, 0, events))
  }

  // After every run: a call is granted exactly when there is room for it in both
  // budgets, and is refused for its tokens only if its requests would have fitted.
  lemma GrantedExactly(node: string, l: Limits, events: seq<Event>, call: Call)
    ensures var s := Final(node, l, INITIAL, events);
            var requests, tokens := GrantedInWindow(node, l, events, Requests, call), GrantedInWindow(node, l, events, Tokens, call);
            Verdict(l, Rotated(s, call).window, call)
            == if !HasRoom(Requests, l, requests, call) then Some(RequestsExhausted)
               else if !HasRoom(Tokens, l, tokens, call) then Some(TokensExhausted)
               else None
  {
    CountersAreGrantTotals(node, l, INITIAL, 0, events, Requests);
    CountersAreGrantTotals(node, l, INITIAL, 0, events, Tokens);
  }

  // And a granted call is all that is charged: what it wanted, in that window.
  lemma GrantIsWhatWasWanted(node: string, l: Limits, events: seq<Event>, call: Call)
    ensures var s, w := Final(node, l, INITIAL, events), LastWindow(node, l, INITIAL, 0, events);
            var over := WindowIsOver(s.window.startedAt, call.checkedAt);
            GrantOf(l, s, w, Acquire(call))
            == if && HasRoom(Requests, l, GrantedInWindow(node, l, events, Requests, call), call)
                  && HasRoom(Tokens, l, GrantedInWindow(node, l, events, Tokens, call), call)
               then [Grant(call.checkedAt, if over then w + 1 else w, call.requests, call.tokens)]
               else []
  {
    GrantedExactly(node, l, events, call);
  }

  // ---- The bound is reached ------------------------------------------------

  // The whole of a budget, if there is one.
  function Whole(cap: Option<nat>): nat {
    if cap.Some? then cap.value else 0
  }

  // A call for the whole of each budget.
  function Full(l: Limits, at: nat): Event {
    Acquire(Call(at, at, Whole(l.requestsPerMinute), Whole(l.tokensPerMinute)))
  }

  // Such calls at the start of each of the minutes from j to k.
  function Minutes(l: Limits, j: nat, k: nat): seq<Event>
    decreases k + 1 - j
  {
    if j > k then [] else [Full(l, j * WINDOW)] + Minutes(l, j + 1, k)
  }

  // The first minute is started by an empty call and spent at its very end.
  function Burst(l: Limits, k: nat): seq<Event> {
    [Acquire(Call(0, 0, 0, 0)), Full(l, WINDOW - 1)] + Minutes(l, 1, k)
  }

  lemma PrependInterval(b: Budget, g: Grant, tail: seq<Grant>, lo: nat, hi: nat)
    ensures IntervalTotal(b, [g] + tail, lo, hi) == (if lo <= g.at < hi then Amount(b, g) else 0) + IntervalTotal(b, tail, lo, hi)
  {
    assert ([g] + tail)[1..] == tail;
  }

  lemma OneMore(n: nat, cap: nat)
    ensures (n + 1) * cap == cap + n * cap
  {
  }

  // A full call in a new window is granted.
  lemma FullIsGranted(node: string, l: Limits, s: LimiterState, index: nat, at: nat)
    requires NeedsReset(s.window, at)
    ensures GrantOf(l, s, index, Full(l, at)) == [Grant(at, index + 1, Whole(l.requestsPerMinute), Whole(l.tokensPerMinute))]
    ensures Apply(node, l, s, Full(l, at)).window.startedAt == Some(at)
    ensures NextWindow(s, index, Full(l, at)) == index + 1
  {
  }

  lemma FirstMinute(node: string, l: Limits, s: LimiterState, index: nat, j: nat, k: nat)
    requires j <= k && NeedsReset(s.window, j * WINDOW)
    ensures var s' := Apply(node, l, s, Full(l, j * WINDOW));
            && NeedsReset(s'.window, (j + 1) * WINDOW)
            && Grants(node, l, s, index, Minutes(l, j, k))
               == [Grant(j * WINDOW, index + 1, Whole(l.requestsPerMinute), Whole(l.tokensPerMinute))]
                  + Grants(node, l, s', index + 1, Minutes(l, j + 1, k))
  {
    FullIsGranted(node, l, s, index, j * WINDOW);
    assert Minutes(l, j, k)[1..] == Minutes(l, j + 1, k);
  }

  lemma {:induction false} MinutesAreGranted(node: string, l: Limits, s: LimiterState, index: nat, j: nat, k: nat, b: Budget,
                                             lo: nat, hi: nat)
    requires Cap(b, l).Some? && j <= k + 1
    requires NeedsReset(s.window, j * WINDOW) && lo <= j * WINDOW && k * WINDOW < hi
    ensures IntervalTotal(b, Grants(node, l, s, index, Minutes(l, j, k)), lo, hi) == (k + 1 - j) * Cap(b, l).value
    decreases k + 1 - j
  {
    if j <= k {
      var s' := Apply(node, l, s, Full(l, j * WINDOW));
      FirstMinute(node, l, s, index, j, k);
      MinutesAreGranted(node, l, s', index + 1, j + 1, k, b, lo, hi);
      PrependInterval(b, Grant(j * WINDOW, index + 1, Whole(l.requestsPerMinute), Whole(l.tokensPerMinute)),
                      Grants(node, l, s', index + 1, Minutes(l, j + 1, k)), lo, hi);
      OneMore(k - j, Cap(b, l).value);
    }
  }

  lemma {:induction false} MinutesAreMonotone(l: Limits, j: nat, k: nat, clock: nat)
    requires clock <= j * WINDOW
    ensures Monotone(Minutes(l, j, k), clock)
    decreases k + 1 - j
  {
    if j <= k {
      MinutesAreMonotone(l, j + 1, k, j * WINDOW);
      assert Minutes(l, j, k)[1..] == Minutes(l, j + 1, k);
    }
  }

  // The bound of SlidingWindowBound is reached for every k, and by both budgets at
  // once: k minutes that begin just before a window ends see k + 1 windows.
  lemma BurstReachesTheBound(node: string, l: Limits, k: nat, b: Budget)
    requires Cap(b, l).Some? && k > 0
    ensures Monotone(Burst(l, k), 0)
    ensures IntervalTotal(b, Grants(node, l, INITIAL, 0, Burst(l, k)), WINDOW - 1, WINDOW - 1 + k * WINDOW)
         == (k + 1) * Cap(b, l).value
  {
    var lo, hi := WINDOW - 1, WINDOW - 1 + k * WINDOW;
    var first, second, rest := Acquire(Call(0, 0, 0, 0)), Full(l, WINDOW - 1), Minutes(l, 1, k);
    var s1 := Apply(node, l, INITIAL, first);
    var s2 := Apply(node, l, s1, second);
    assert Burst(l, k)[1..] == [second] + rest && ([second] + rest)[1..] == rest;
    MinutesAreMonotone(l, 1, k, WINDOW - 1);
    assert Monotone([second] + rest, 0);
    MinutesAreGranted(node, l, s2, 1, 1, k, b, lo, hi);
    assert GrantOf(l, INITIAL, 0, first) == [Grant(0, 1, 0, 0)];
    assert GrantOf(l, s1, 1, second) == [Grant(WINDOW - 1, 1, Whole(l.requestsPerMinute), Whole(l.tokensPerMinute))];
    var gs := Grants(node, l, s2, 1, rest);
    assert Grants(node, l, s1, 1, [second] + rest) == GrantOf(l, s1, 1, second) + gs;
    assert Grants(node, l, INITIAL, 0, Burst(l, k)) == [Grant(0, 1, 0, 0)] + (GrantOf(l, s1, 1, second) + gs);
    PrependInterval(b, GrantOf(l, s1, 1, second)[0], gs, lo, hi);
    PrependInterval(b, Grant(0, 1, 0, 0), GrantOf(l, s1, 1, second) + gs, lo, hi);
    OneMore(k, Cap(b, l).value);
  }

  // ---- Gossip --------------------------------------------------------------

  function WithoutMerges(events: seq<Event>): seq<Event>
    decreases |events|
  {
    if events == [] then []
    else (if events[0].Acquire? then [events[0]] else []) + WithoutMerges(events[1..])
  }

  // What peers report never changes what this node grants.
  lemma {:induction false} MergesDoNotMatter(node: string, l: Limits, s: LimiterState, s': LimiterState, index: nat, events: seq<Event>)
    requires s.window == s'.window
    ensures Grants(node, l, s, index, events) == Grants(node, l, s', index, WithoutMerges(events))
    decreases |events|
  {
    if events != [] {
      var e := events[0];
      var t := Apply(node, l, s, e);
      if e.Acquire? {
        MergesDoNotMatter(node, l, t, Apply(node, l, s', e), NextWindow(s, index, e), events[1..]);
        assert ([e] + WithoutMerges(events[1..]))[1..] == WithoutMerges(events[1..]);
      } else {
        MergesDoNotMatter(node, l, t, s', index, events[1..]);
        assert [] + WithoutMerges(events[1..]) == WithoutMerges(events[1..]);
      }
    }
  }

  // Merging keeps, for every node, the larger of the two counts.
  lemma MergeKeepsLarger(c: GCounter, d: GCounter, n: string)
    ensures Count(Merge(c, d), n) >= Count(c, n) && Count(Merge(c, d), n) >= Count(d, n)
    ensures Count(Merge(c, d), n) == Count(c, n) || Count(Merge(c, d), n) == Count(d, n)
  {
  }

  predicate Silent(e: Event, node: string) {
    match e
    case Acquire(_) => true
    case MergeRequests(d) => node !in d
    case MergeTokens(d) => node !in d
  }

  // While no peer reports about this node, its own entry is what it has granted in
  // the window, no more and no less.
  lemma {:induction false} OwnSpendIsExact(node: string, l: Limits, s: LimiterState, events: seq<Event>)
    requires Count(s.requestsSeen, node) == s.window.requests && Count(s.tokensSeen, node) == s.window.tokens
    requires forall i :: 0 <= i < |events| ==> Silent(events[i], node)
    ensures var f := Final(node, l, s, events);
            Count(f.requestsSeen, node) == f.window.requests && Count(f.tokensSeen, node) == f.window.tokens
    decreases |events|
  {
    if events != [] {
      assert Silent(events[0], node);
      OwnSpendIsExact(node, l, Apply(node, l, s, events[0]), events[1..]);
    }
  }

  // This node's own entry never falls behind what it has granted in the window.
  lemma {:induction false} OwnSpendIsPublished(node: string, l: Limits, s: LimiterState, events: seq<Event>)
    requires Count(s.requestsSeen, node) >= s.window.requests && Count(s.tokensSeen, node) >= s.window.tokens
    ensures var f := Final(node, l, s, events);
            Count(f.requestsSeen, node) >= f.window.requests && Count(f.tokensSeen, node) >= f.window.tokens
    decreases |events|
  {
    if events != [] {
      OwnSpendIsPublished(node, l, Apply(node, l, s, events[0]), events[1..]);
    }
  }
}
