// Token sampling (crates/inference-runtime-ort/src/sampling.rs), over the reals.
//
// What the standard and rand libraries do is a parameter: the exponential, the
// selection and sorting routines (which may order equal values as they like),
// and the weighted choice.
module Sampling {
  import opened Wrappers

  datatype Scored = Scored(id: nat, value: real)

  datatype Params = Params(temperature: Option<real>, topK: Option<nat>, topP: Option<real>)

  // ---- The libraries -------------------------------------------------------

  predicate Descending(s: seq<Scored>) {
    forall i, j :: 0 <= i < j < |s| ==> s[j].value <= s[i].value
  }

  ghost predicate Selects(s: seq<Scored>, k: nat, r: seq<Scored>) {
    && multiset(r) == multiset(s) && |r| == |s|
    && forall i, j :: 0 <= i < k <= j < |r| ==> r[j].value <= r[i].value
  }

  ghost predicate Sorts(s: seq<Scored>, r: seq<Scored>) {
    multiset(r) == multiset(s) && |r| == |s| && Descending(r)
  }

  // The weights from which a weighted index can be built.
  predicate Accepted(weights: seq<real>) {
    && weights != []
    && (forall i :: 0 <= i < |weights| ==> weights[i] >= 0.0)
    && exists i :: 0 <= i < |weights| && weights[i] > 0.0
  }

  ghost predicate Chooses(weights: seq<real>, i: nat) {
    Accepted(weights) ==> i < |weights| && weights[i] > 0.0
  }

  datatype Library<!G(!new)> = Library(
    exp: real -> real,
    select: (seq<Scored>, nat) -> seq<Scored>,
    sort: seq<Scored> -> seq<Scored>,
    choose: (seq<real>, G) -> (nat, G))
  {
    ghost predicate Ok() {
      && (forall x :: exp(x) > 0.0)
      && (forall x, y :: x < y ==> exp(x) < exp(y))
      && (forall s, k :: 0 < k < |s| ==> Selects(s, k, select(s, k)))
      && (forall s :: Sorts(s, sort(s)))
      && (forall w, rng :: Chooses(w, choose(w, rng).0))
    }
  }

  // ---- What the pipeline computes ------------------------------------------

  // The first position of a largest logit (0 when there is none).
  function ArgMaxOf(logits: seq<real>): (best: nat)
    ensures logits == [] ==> best == 0
    ensures logits != [] ==> best < |logits|
    ensures forall j :: 0 <= j < |logits| ==> logits[j] <= logits[best]
    ensures forall j :: 0 <= j < best ==> logits[j] < logits[best]
  {
    if |logits| <= 1 then 0
    else
      var last := |logits| - 1;
      var best := ArgMaxOf(logits[..last]);
      if logits[last] > logits[best] then last else best
  }

  function Scaled(logits: seq<real>, temperature: real): seq<Scored>
    requires temperature > 0.0
  {
    seq(|logits|, i requires 0 <= i < |logits| => Scored(i, logits[i] / temperature))
  }

  function TopK<G(!new)>(lib: Library<G>, scored: seq<Scored>, topK: Option<nat>): seq<Scored>
    requires lib.Ok()
  {
    if topK.Some? && 0 < topK.value < |scored| then lib.select(scored, topK.value)[..topK.value] else scored
  }

  function Sum(s: seq<Scored>): real {
    if s == [] then 0.0 else Sum(s[..|s| - 1]) + s[|s| - 1].value
  }

  function Highest(s: seq<Scored>): (m: real)
    requires s != []
    ensures forall i :: 0 <= i < |s| ==> s[i].value <= m
    ensures exists i :: 0 <= i < |s| && s[i].value == m
  {
    if |s| == 1 then s[0].value
    else
      var m, last := Highest(s[..|s| - 1]), s[|s| - 1].value;
      if last > m then last else m
  }

  function Exps(exp: real -> real, s: seq<Scored>): seq<Scored> {
    if s == [] then [] else ExpsLess(exp, s, Highest(s))
  }

  function ExpsLess(exp: real -> real, s: seq<Scored>, max: real): seq<Scored> {
    seq(|s|, i requires 0 <= i < |s| => Scored(s[i].id, exp(s[i].value - max)))
  }

  function DividedBy(s: seq<Scored>, d: real): seq<Scored>
    requires d > 0.0
  {
    seq(|s|, i requires 0 <= i < |s| => Scored(s[i].id, s[i].value / d))
  }

  function Normalised(s: seq<Scored>): seq<Scored> {
    if Sum(s) > 0.0 then DividedBy(s, Sum(s)) else s
  }

  function Softmax(exp: real -> real, s: seq<Scored>): seq<Scored> {
    Normalised(Exps(exp, s))
  }

  // How many entries of a sorted list it takes to reach mass p.
  function Cutoff(s: seq<Scored>, p: real, i: nat): (n: nat)
    requires i <= |s|
    requires forall k :: 0 < k <= i ==> Sum(s[..k]) < p
    ensures i <= n <= |s|
    ensures forall k :: 0 < k < n ==> Sum(s[..k]) < p
    ensures n == |s| || (n > i && Sum(s[..n]) >= p)
    decreases |s| - i
  {
    if i == |s| then i
    else if Sum(s[..i + 1]) >= p then i + 1
    else Cutoff(s, p, i + 1)
  }

  function Nucleus<G(!new)>(lib: Library<G>, probs: seq<Scored>, p: real): seq<Scored> {
    var sorted := lib.sort(probs);
    sorted[..Cutoff(sorted, p, 0)]
  }

  predicate InUse(topP: Option<real>) {
    topP.Some? && 0.0 <= topP.value < 1.0
  }

  function TopP<G(!new)>(lib: Library<G>, probs: seq<Scored>, topP: Option<real>): seq<Scored> {
    if InUse(topP) then Normalised(Nucleus(lib, probs, topP.value)) else probs
  }

  function Weights(s: seq<Scored>): seq<real> {
    seq(|s|, i requires 0 <= i < |s| => s[i].value)
  }

  function Candidates<G(!new)>(lib: Library<G>, logits: seq<real>, params: Params, temperature: real): seq<Scored>
    requires lib.Ok() && temperature > 0.0
  {
    Softmax(lib.exp, TopK(lib, Scaled(logits, temperature), params.topK))
  }

  function TemperatureOf(params: Params): real {
    if params.temperature.Some? then params.temperature.value else 1.0
  }

  function Draw<G(!new)>(lib: Library<G>, probs: seq<Scored>, logits: seq<real>, rng: G): (nat, G)
    requires lib.Ok()
  {
    if Accepted(Weights(probs)) then
      assert Chooses(Weights(probs), lib.choose(Weights(probs), rng).0);
      var (i, rng') := lib.choose(Weights(probs), rng);
      (probs[i].id, rng')
    else (if probs != [] then probs[0].id else ArgMaxOf(logits), rng)
  }

  function Sampled<G(!new)>(lib: Library<G>, logits: seq<real>, params: Params, rng: G): (nat, G)
    requires lib.Ok()
  {
    var temperature := TemperatureOf(params);
    if temperature <= 0.0 then (ArgMaxOf(logits), rng)
    else Draw(lib, TopP(lib, Candidates(lib, logits, params, temperature), params.topP), logits, rng)
  }

  // ---- The code ------------------------------------------------------------

  method ArgMax(logits: seq<real>) returns (best: nat)
    ensures best == ArgMaxOf(logits)
  {
    best := 0;
    var value: Option<real> := None;
    for i := 0 to |logits|
      invariant best == ArgMaxOf(logits[..i])
      invariant value == if i == 0 then None else Some(logits[best])
    {
      assert logits[..i + 1][..i] == logits[..i];
      if value.None? || logits[i] > value.value {
        best, value := i, Some(logits[i]);
      }
    }
    assert logits[..|logits|] == logits;
  }

  method Total(s: seq<Scored>) returns (sum: real)
    ensures sum == Sum(s)
  {
    sum := 0.0;
    for i := 0 to |s|
      invariant sum == Sum(s[..i])
    {
      assert s[..i + 1][..i] == s[..i];
      sum := sum + s[i].value;
    }
    assert s[..|s|] == s;
  }

  // Divide every weight by their sum, in place, unless there is nothing to divide.
  method Normalise(s: array<Scored>)
    modifies s
    ensures s[..] == Normalised(old(s[..]))
  {
    var sum := Total(s[..]);
    if sum > 0.0 {
      for i := 0 to s.Length
        invariant s[..i] == DividedBy(old(s[..]), sum)[..i]
        invariant s[i..] == old(s[i..])
      {
        s[i] := Scored(s[i].id, s[i].value / sum);
      }
    }
  }

  method SoftmaxOf(exp: real -> real, scored: seq<Scored>) returns (exps: array<Scored>)
    ensures fresh(exps) && exps[..] == Softmax(exp, scored)
  {
    if scored == [] {
      exps := new Scored[0];
      return;
    }
    var max := scored[0].value;
    for i := 1 to |scored|
      invariant max == Highest(scored[..i])
    {
      assert scored[..i + 1][..i] == scored[..i];
      if scored[i].value > max {
        max := scored[i].value;
      }
    }
    assert scored[..|scored|] == scored;
    exps := new Scored[|scored|](i requires 0 <= i < |scored| => Scored(scored[i].id, exp(scored[i].value - max)));
    assert exps[..] == Exps(exp, scored);
    Normalise(exps);
  }

  method FindCutoff(s: seq<Scored>, p: real) returns (cutoff: nat)
    ensures cutoff == Cutoff(s, p, 0)
  {
    var acc := 0.0;
    cutoff := |s|;
    for i := 0 to |s|
      invariant cutoff == |s|
      invariant acc == Sum(s[..i])
      invariant forall k :: 0 < k <= i ==> Sum(s[..k]) < p
      invariant Cutoff(s, p, 0) == Cutoff(s, p, i)
    {
      assert s[..i + 1][..i] == s[..i];
      acc := acc + s[i].value;
      if acc >= p {
        cutoff := i + 1;
        break;
      }
    }
  }

  method Truncate<G(!new)>(lib: Library<G>, probs: seq<Scored>, topP: Option<real>) returns (kept: seq<Scored>)
    requires lib.Ok()
    ensures kept == TopP(lib, probs, topP)
  {
    kept := probs;
    if topP.Some? && 0.0 <= topP.value < 1.0 {
      var sorted := lib.sort(probs);
      var cutoff := FindCutoff(sorted, topP.value);
      var front := new Scored[cutoff](i requires 0 <= i < cutoff => sorted[i]);
      assert front[..] == sorted[..cutoff];
      Normalise(front);
      kept := front[..];
    }
  }

  method DrawFrom<G(!new)>(lib: Library<G>, probs: seq<Scored>, logits: seq<real>, rng: G) returns (token: nat, rng': G)
    requires lib.Ok()
    ensures (token, rng') == Draw(lib, probs, logits, rng)
  {
    var weights := Weights(probs);
    if Accepted(weights) {
      assert Chooses(weights, lib.choose(weights, rng).0);
      var (i, next) := lib.choose(weights, rng);
      return probs[i].id, next;
    }
    if probs != [] {
      return probs[0].id, rng;
    }
    token := ArgMax(logits);
    return token, rng;
  }

  method SampleNext<G(!new)>(lib: Library<G>, logits: seq<real>, params: Params, rng: G) returns (token: nat, rng': G)
    requires lib.Ok()
    ensures (token, rng') == Sampled(lib, logits, params, rng)
  {
    var temperature := TemperatureOf(params);
    if temperature <= 0.0 {
      token := ArgMax(logits);
      return token, rng;
    }
    var scored := Scaled(logits, temperature);
    if params.topK.Some? && params.topK.value < |scored| && params.topK.value > 0 {
      scored := lib.select(scored, params.topK.value)[..params.topK.value];
    }
    var exps := SoftmaxOf(lib.exp, scored);
    var probs := Truncate(lib, exps[..], params.topP);
    token, rng' := DrawFrom(lib, probs, logits, rng);
  }
}
