// What top-k, softmax and top-p promise, proved about the functions that
// Sampling.SampleNext is specified by.
module SamplingLaws {
  import opened Wrappers
  import opened Sampling

  // ---- Sums ----------------------------------------------------------------

  predicate Positive(s: seq<Scored>) {
    forall i :: 0 <= i < |s| ==> s[i].value > 0.0
  }

  lemma {:induction false} SumIsPositive(s: seq<Scored>)
    requires Positive(s)
    ensures Sum(s) >= 0.0 && (s != [] ==> Sum(s) > 0.0)
  {
    if s != [] {
      SumIsPositive(s[..|s| - 1]);
    }
  }

  lemma AddQuotients(a: real, b: real, d: real)
    requires d > 0.0
    ensures a / d + b / d == (a + b) / d
  {
  }

  lemma {:induction false} SumOfQuotients(s: seq<Scored>, d: real)
    requires d > 0.0
    ensures Sum(DividedBy(s, d)) == Sum(s) / d
  {
    if s != [] {
      var n := |s| - 1;
      assert DividedBy(s, d)[..n] == DividedBy(s[..n], d);
      SumOfQuotients(s[..n], d);
      AddQuotients(Sum(s[..n]), s[n].value, d);
    }
  }

  lemma Quotient(x: real, d: real)
    requires d > 0.0
    ensures x > 0.0 ==> x / d > 0.0
  {
  }

  lemma QuotientOrder(x: real, y: real, d: real)
    requires d > 0.0
    ensures x <= y <==> x / d <= y / d
  {
  }

  lemma SelfQuotient(x: real)
    requires x > 0.0
    ensures x / x == 1.0
  {
  }

  predicate SameOrder(a: seq<Scored>, b: seq<Scored>) {
    && |a| == |b|
    && forall i, j :: 0 <= i < |a| && 0 <= j < |a| ==> (a[i].value <= a[j].value <==> b[i].value <= b[j].value)
  }

  lemma SameOrderIsTransitive(a: seq<Scored>, b: seq<Scored>, c: seq<Scored>)
    requires SameOrder(a, b) && SameOrder(b, c)
    ensures SameOrder(a, c)
  {
  }

  // Renormalised weights are a distribution and keep their proportions.
  lemma NormalisedIsADistribution(s: seq<Scored>)
    requires s != [] && Positive(s)
    ensures Sum(Normalised(s)) == 1.0 && Positive(Normalised(s)) && |Normalised(s)| == |s|
    ensures forall i :: 0 <= i < |s| ==> Normalised(s)[i] == Scored(s[i].id, s[i].value / Sum(s))
    ensures SameOrder(Normalised(s), s)
  {
    SumIsPositive(s);
    SumOfQuotients(s, Sum(s));
    SelfQuotient(Sum(s));
    forall i | 0 <= i < |s| ensures Normalised(s)[i].value > 0.0 {
      Quotient(s[i].value, Sum(s));
    }
    forall i, j | 0 <= i < |s| && 0 <= j < |s|
      ensures Normalised(s)[i].value <= Normalised(s)[j].value <==> s[i].value <= s[j].value
    {
      QuotientOrder(s[i].value, s[j].value, Sum(s));
    }
  }

  // ---- Softmax -------------------------------------------------------------

  // The softmax of some scores is a distribution over the same tokens that
  // orders them as the scores do.
  lemma SoftmaxIsADistribution<G(!new)>(lib: Library<G>, s: seq<Scored>)
    requires lib.Ok() && s != []
    ensures var probs := Softmax(lib.exp, s);
            && |probs| == |s| && Positive(probs) && Sum(probs) == 1.0
            && (forall i :: 0 <= i < |s| ==> probs[i].id == s[i].id)
            && SameOrder(probs, s)
  {
    ExpsOrder(lib, s);
    NormalisedIsADistribution(Exps(lib.exp, s));
    SameOrderIsTransitive(Softmax(lib.exp, s), Exps(lib.exp, s), s);
  }

  lemma ExpsOrder<G(!new)>(lib: Library<G>, s: seq<Scored>)
    requires lib.Ok() && s != []
    ensures SameOrder(Exps(lib.exp, s), s) && Positive(Exps(lib.exp, s))
  {
    var e := Exps(lib.exp, s);
    forall i, j | 0 <= i < |s| && 0 <= j < |s| ensures e[i].value <= e[j].value <==> s[i].value <= s[j].value {
      ExpOrder(lib, s[i].value - Highest(s), s[j].value - Highest(s));
    }
  }

  lemma ExpOrder<G(!new)>(lib: Library<G>, x: real, y: real)
    requires lib.Ok()
    ensures lib.exp(x) <= lib.exp(y) <==> x <= y
  {
  }

  // ---- Top-k ---------------------------------------------------------------

  predicate Ids(s: seq<Scored>, id: nat) {
    exists i :: 0 <= i < |s| && s[i].id == id
  }

  lemma HasId(s: seq<Scored>, i: nat)
    requires i < |s|
    ensures Ids(s, s[i].id)
  {
  }

  predicate DistinctIds(s: seq<Scored>) {
    forall i, j :: 0 <= i < j < |s| ==> s[i].id != s[j].id
  }

  // Entries that carry a token's own score.
  predicate ScoresOf(s: seq<Scored>, logits: seq<real>, temperature: real)
    requires temperature > 0.0
  {
    forall i :: 0 <= i < |s| ==> s[i].id < |logits| && s[i].value == logits[s[i].id] / temperature
  }

  lemma Somewhere<T>(x: T, s: seq<T>) returns (i: nat)
    requires x in multiset(s)
    ensures i < |s| && s[i] == x
  {
    i :| 0 <= i < |s| && s[i] == x;
  }

  lemma TwoPlaces<T>(s: seq<T>, i: nat, j: nat)
    requires i < j < |s| && s[i] == s[j]
    ensures multiset(s)[s[i]] >= 2
  {
    assert s == s[..j] + ([s[j]] + s[j + 1..]);
    assert s[..j][i] == s[i];
    assert s[i] in multiset(s[..j]);
  }

  lemma {:induction false} OnePlace(s: seq<Scored>, x: Scored)
    requires DistinctIds(s)
    ensures multiset(s)[x] <= 1
  {
    if s != [] {
      var n := |s| - 1;
      assert s == s[..n] + [s[n]];
      OnePlace(s[..n], x);
    }
  }

  // Rearranging scores keeps each token where only its own score is.
  lemma RearrangedScores(s: seq<Scored>, r: seq<Scored>, logits: seq<real>, temperature: real)
    requires temperature > 0.0 && multiset(r) == multiset(s)
    requires ScoresOf(s, logits, temperature) && DistinctIds(s)
    ensures ScoresOf(r, logits, temperature) && DistinctIds(r)
  {
    forall i | 0 <= i < |r| ensures r[i].id < |logits| && r[i].value == logits[r[i].id] / temperature {
      assert r[i] in multiset(r);
      var j := Somewhere(r[i], s);
    }
    forall i, j | 0 <= i < j < |r| ensures r[i].id != r[j].id {
      if r[i].id == r[j].id {
        assert r[i] == r[j];
        TwoPlaces(r, i, j);
        OnePlace(s, r[i]);
      }
    }
  }

  lemma SelectedIsNotWorse(s: seq<Scored>, r: seq<Scored>, k: nat, logits: seq<real>, temperature: real, id: nat, i: nat)
    requires temperature > 0.0 && s == Scaled(logits, temperature) && Selects(s, k, r) && k <= |r|
    requires ScoresOf(r, logits, temperature) && id < |logits| && i < k && !Ids(r[..k], id)
    ensures logits[id] <= logits[r[i].id]
  {
    assert s[id] in multiset(s);
    var at := Somewhere(s[id], r);
    DroppedIsBehind(r[..k], r, at);
    QuotientOrder(logits[id], logits[r[i].id], temperature);
  }

  // What top-k keeps: as many as asked for, each once and with its own score,
  // and none below one it drops.
  lemma TopKKeepsTheBest<G(!new)>(lib: Library<G>, logits: seq<real>, temperature: real, topK: Option<nat>)
    requires lib.Ok() && temperature > 0.0
    ensures var kept := TopK(lib, Scaled(logits, temperature), topK);
            && |kept| == (if topK.Some? && 0 < topK.value < |logits| then topK.value else |logits|)
            && ScoresOf(kept, logits, temperature) && DistinctIds(kept)
            && forall id, i :: 0 <= id < |logits| && 0 <= i < |kept| && !Ids(kept, id) ==> logits[id] <= logits[kept[i].id]
  {
    var s := Scaled(logits, temperature);
    var kept := TopK(lib, s, topK);
    if topK.Some? && 0 < topK.value < |s| {
      var r := lib.select(s, topK.value);
      assert Selects(s, topK.value, r);
      RearrangedScores(s, r, logits, temperature);
      forall id, i | 0 <= id < |logits| && 0 <= i < |kept| && !Ids(kept, id) ensures logits[id] <= logits[kept[i].id] {
        SelectedIsNotWorse(s, r, topK.value, logits, temperature, id, i);
      }
    } else {
      forall id | 0 <= id < |logits| ensures Ids(kept, id) {
        assert kept[id].id == id;
      }
    }
  }

  // ---- Top-p ---------------------------------------------------------------

  // The mass of a set of tokens, and how many entries it covers.
  function MassOf(s: seq<Scored>, tokens: set<nat>): real {
    if s == [] then 0.0
    else MassOf(s[..|s| - 1], tokens) + (if s[|s| - 1].id in tokens then s[|s| - 1].value else 0.0)
  }

  function CountIn(s: seq<Scored>, tokens: set<nat>): nat {
    if s == [] then 0
    else CountIn(s[..|s| - 1], tokens) + (if s[|s| - 1].id in tokens then 1 else 0)
  }

  lemma {:induction false} WithoutEntry(s: seq<Scored>, i: nat, tokens: set<nat>)
    requires i < |s|
    ensures var rest := s[..i] + s[i + 1..];
            && MassOf(s, tokens) == MassOf(rest, tokens) + (if s[i].id in tokens then s[i].value else 0.0)
            && CountIn(s, tokens) == CountIn(rest, tokens) + (if s[i].id in tokens then 1 else 0)
    decreases |s|
  {
    var rest, n := s[..i] + s[i + 1..], |s| - 1;
    if i == n {
      assert rest == s[..n];
    } else {
      WithoutEntry(s[..n], i, tokens);
      assert rest[..n - 1] == s[..n][..i] + s[..n][i + 1..];
    }
  }

  lemma RemoveSame<T>(a: seq<T>, x: T, b: seq<T>, i: nat)
    requires i < |b| && b[i] == x && multiset(a + [x]) == multiset(b)
    ensures multiset(a) == multiset(b[..i] + b[i + 1..])
  {
    var rest := b[..i] + b[i + 1..];
    assert b == b[..i] + ([x] + b[i + 1..]);
    assert multiset(b) == multiset(rest) + multiset{x};
    assert multiset(a + [x]) - multiset{x} == multiset(a);
    assert (multiset(rest) + multiset{x}) - multiset{x} == multiset(rest);
  }

  lemma {:induction false} RearrangedMass(a: seq<Scored>, b: seq<Scored>, tokens: set<nat>)
    requires multiset(a) == multiset(b)
    ensures MassOf(a, tokens) == MassOf(b, tokens) && CountIn(a, tokens) == CountIn(b, tokens)
    decreases |a|
  {
    if a == [] {
      assert |multiset(b)| == 0;
    } else {
      var n := |a| - 1;
      assert a == a[..n] + [a[n]];
      var i := Somewhere(a[n], b);
      WithoutEntry(b, i, tokens);
      RemoveSame(a[..n], a[n], b, i);
      RearrangedMass(a[..n], b[..i] + b[i + 1..], tokens);
    }
  }

  lemma {:induction false} MassOfAll(s: seq<Scored>, tokens: set<nat>)
    requires forall i :: 0 <= i < |s| ==> s[i].id in tokens
    ensures MassOf(s, tokens) == Sum(s)
  {
    if s != [] {
      MassOfAll(s[..|s| - 1], tokens);
    }
  }

  lemma RearrangedSum(a: seq<Scored>, b: seq<Scored>)
    requires multiset(a) == multiset(b)
    ensures Sum(a) == Sum(b)
  {
    var tokens := set x | x in multiset(a) :: x.id;
    assert forall i :: 0 <= i < |a| ==> a[i] in multiset(a);
    assert forall i :: 0 <= i < |b| ==> b[i] in multiset(b);
    MassOfAll(a, tokens);
    MassOfAll(b, tokens);
    RearrangedMass(a, b, tokens);
  }

  lemma {:induction false} CountIgnoresAbsent(s: seq<Scored>, tokens: set<nat>, id: nat)
    requires !Ids(s, id)
    ensures CountIn(s, tokens) == CountIn(s, tokens - {id})
  {
    if s != [] {
      var n := |s| - 1;
      assert s[n].id != id;
      assert forall i :: 0 <= i < n ==> s[..n][i] == s[i];
      CountIgnoresAbsent(s[..n], tokens, id);
    }
  }

  lemma {:induction false} CountAtMostSize(s: seq<Scored>, tokens: set<nat>)
    requires DistinctIds(s)
    ensures CountIn(s, tokens) <= |tokens|
    decreases |s|
  {
    if s != [] {
      var n := |s| - 1;
      var id := s[n].id;
      if id in tokens {
        CountIgnoresAbsent(s[..n], tokens, id);
        CountAtMostSize(s[..n], tokens - {id});
      } else {
        CountAtMostSize(s[..n], tokens);
      }
    }
  }

  lemma {:induction false} CountAtMostLength(s: seq<Scored>, tokens: set<nat>)
    ensures CountIn(s, tokens) <= |s|
  {
    if s != [] {
      CountAtMostLength(s[..|s| - 1], tokens);
    }
  }

  // In a sorted list, no set of entries outweighs equally many from the front.
  lemma {:induction false} FrontIsHeaviest(s: seq<Scored>, tokens: set<nat>)
    requires Descending(s)
    ensures CountIn(s, tokens) <= |s|
    ensures MassOf(s, tokens) <= Sum(s[..CountIn(s, tokens)])
  {
    CountAtMostLength(s, tokens);
    if s != [] {
      var n := |s| - 1;
      FrontIsHeaviest(s[..n], tokens);
      var c := CountIn(s[..n], tokens);
      assert s[..n][..c] == s[..c];
      if s[n].id in tokens {
        assert s[..c + 1][..c] == s[..c];
        assert s[n].value <= s[c].value;
      }
    }
  }

  // Top-p keeps a non-empty set of mass at least p, and any set of fewer tokens
  // (other than the empty set against p = 0) has a mass below p.
  lemma NucleusIsSmallest<G(!new)>(lib: Library<G>, probs: seq<Scored>, p: real, tokens: set<nat>)
    requires lib.Ok() && probs != [] && Positive(probs) && DistinctIds(probs)
    requires Sum(probs) == 1.0 && 0.0 <= p < 1.0
    ensures var kept := Nucleus(lib, probs, p);
            && kept != [] && multiset(kept) <= multiset(probs) && Positive(kept)
            && Sum(kept) >= p
            && (|tokens| < |kept| ==> MassOf(probs, tokens) < p || (p == 0.0 && tokens == {}))
  {
    var sorted := lib.sort(probs);
    assert Sorts(probs, sorted);
    RearrangedSum(probs, sorted);
    PositiveRearranged(probs, sorted);
    CutoffSuffices(sorted, p);
    if |tokens| < Cutoff(sorted, p, 0) {
      RearrangedMass(probs, sorted, tokens);
      CountAtMostSize(probs, tokens);
      SmallerSetIsLighter(sorted, p, Cutoff(sorted, p, 0), tokens);
    }
  }

  lemma CutoffSuffices(sorted: seq<Scored>, p: real)
    requires sorted != [] && Positive(sorted) && Sum(sorted) >= p
    ensures var kept := sorted[..Cutoff(sorted, p, 0)];
            && kept != [] && multiset(kept) <= multiset(sorted) && Positive(kept)
            && Sum(kept) >= p
  {
    var cutoff := Cutoff(sorted, p, 0);
    assert sorted[..|sorted|] == sorted;
    assert sorted[..cutoff] + sorted[cutoff..] == sorted;
  }

  lemma SmallerSetIsLighter(sorted: seq<Scored>, p: real, cutoff: nat, tokens: set<nat>)
    requires Descending(sorted) && Positive(sorted) && cutoff <= |sorted| && p >= 0.0
    requires forall k :: 0 < k < cutoff ==> Sum(sorted[..k]) < p
    requires CountIn(sorted, tokens) <= |tokens| < cutoff
    ensures MassOf(sorted, tokens) < p || (p == 0.0 && tokens == {})
  {
    FrontIsHeaviest(sorted, tokens);
    var c := CountIn(sorted, tokens);
    if c == 0 {
      assert Sum(sorted[..0]) == 0.0;
      if tokens != {} {
        SingletonIsPositive(sorted, p, cutoff, tokens);
      }
    }
  }

  lemma SingletonIsPositive(sorted: seq<Scored>, p: real, cutoff: nat, tokens: set<nat>)
    requires Positive(sorted) && cutoff <= |sorted|
    requires forall k :: 0 < k < cutoff ==> Sum(sorted[..k]) < p
    requires tokens != {} && |tokens| < cutoff
    ensures p > 0.0
  {
    assert |tokens| != 0;
    assert Sum(sorted[..1]) < p;
    SumIsPositive(sorted[..1]);
  }

  lemma PositiveRearranged(a: seq<Scored>, b: seq<Scored>)
    requires multiset(a) == multiset(b) && Positive(a)
    ensures Positive(b)
  {
    forall i | 0 <= i < |b| ensures b[i].value > 0.0 {
      assert b[i] in multiset(b);
      var j := Somewhere(b[i], a);
    }
  }

  // ---- The sampled token ---------------------------------------------------

  // What is left after both cuts.
  function Survivors<G(!new)>(lib: Library<G>, logits: seq<real>, params: Params): seq<Scored>
    requires lib.Ok() && TemperatureOf(params) > 0.0
  {
    TopP(lib, Candidates(lib, logits, params, TemperatureOf(params)), params.topP)
  }

  lemma CandidateScores(kept: seq<Scored>, probs: seq<Scored>, logits: seq<real>, t: real)
    requires t > 0.0 && ScoresOf(kept, logits, t) && DistinctIds(kept) && |probs| == |kept|
    requires forall i :: 0 <= i < |kept| ==> probs[i].id == kept[i].id
    requires SameOrder(probs, kept)
    ensures DistinctIds(probs) && Follows(probs, logits)
  {
    forall i, j | 0 <= i < |probs| && 0 <= j < |probs|
      ensures probs[i].value <= probs[j].value <==> logits[probs[i].id] <= logits[probs[j].id]
    {
      QuotientOrder(logits[kept[i].id], logits[kept[j].id], t);
    }
  }

  // The entries are scored in the order of their tokens' logits.
  predicate Follows(s: seq<Scored>, logits: seq<real>) {
    && (forall i :: 0 <= i < |s| ==> s[i].id < |logits|)
    && forall i, j :: 0 <= i < |s| && 0 <= j < |s| ==>
         (s[i].value <= s[j].value <==> logits[s[i].id] <= logits[s[j].id])
  }

  lemma CandidatesAreADistribution<G(!new)>(lib: Library<G>, logits: seq<real>, params: Params)
    requires lib.Ok() && TemperatureOf(params) > 0.0 && logits != []
    ensures var probs := Candidates(lib, logits, params, TemperatureOf(params));
            && probs != [] && Positive(probs) && Sum(probs) == 1.0
            && DistinctIds(probs) && Follows(probs, logits)
  {
    var t := TemperatureOf(params);
    var kept := TopK(lib, Scaled(logits, t), params.topK);
    TopKKeepsTheBest(lib, logits, t, params.topK);
    SoftmaxIsADistribution(lib, kept);
    CandidateScores(kept, Softmax(lib.exp, kept), logits, t);
  }

  // The survivors are a distribution, and a nucleus survivor keeps its share.
  lemma SurvivorsAreADistribution<G(!new)>(lib: Library<G>, logits: seq<real>, params: Params)
    requires lib.Ok() && TemperatureOf(params) > 0.0 && logits != []
    ensures var s := Survivors(lib, logits, params);
            && s != [] && Positive(s) && Sum(s) == 1.0
            && (params.topP.None? || params.topP.value < 0.0 || params.topP.value >= 1.0 ==>
                  s == Candidates(lib, logits, params, TemperatureOf(params)))
            && (params.topP.Some? && 0.0 <= params.topP.value < 1.0 ==>
                  var kept := Nucleus(lib, Candidates(lib, logits, params, TemperatureOf(params)), params.topP.value);
                  && |s| == |kept| && Sum(kept) > 0.0
                  && forall i :: 0 <= i < |s| ==> s[i] == Scored(kept[i].id, kept[i].value / Sum(kept)))
  {
    CandidatesAreADistribution(lib, logits, params);
    if InUse(params.topP) {
      var probs := Candidates(lib, logits, params, TemperatureOf(params));
      NucleusIsSmallest(lib, probs, params.topP.value, {});
      var kept := Nucleus(lib, probs, params.topP.value);
      SumIsPositive(kept);
      NormalisedIsADistribution(kept);
    }
  }

  lemma SurvivorIsCandidate<G(!new)>(lib: Library<G>, probs: seq<Scored>, topP: Option<real>, i: nat) returns (at: nat)
    requires lib.Ok() && i < |TopP(lib, probs, topP)|
    ensures at < |probs| && probs[at].id == TopP(lib, probs, topP)[i].id
  {
    if InUse(topP) {
      var sorted := lib.sort(probs);
      assert Sorts(probs, sorted);
      assert sorted[i] in multiset(sorted);
      at := Somewhere(sorted[i], probs);
    } else {
      at := i;
    }
  }

  lemma DroppedIsBehind(kept: seq<Scored>, all: seq<Scored>, at: nat)
    requires |kept| <= |all| && forall i :: 0 <= i < |kept| ==> kept[i].id == all[i].id
    requires at < |all| && !Ids(kept, all[at].id)
    ensures at >= |kept|
  {
  }

  // No survivor of top-p is below an entry that top-p drops.
  lemma TopPKeepsTheBest<G(!new)>(lib: Library<G>, probs: seq<Scored>, topP: Option<real>, i: nat, j: nat) returns (at: nat)
    requires lib.Ok() && i < |TopP(lib, probs, topP)| && j < |probs|
    requires !Ids(TopP(lib, probs, topP), probs[j].id)
    ensures at < |probs| && probs[at].id == TopP(lib, probs, topP)[i].id && probs[j].value <= probs[at].value
  {
    var s := TopP(lib, probs, topP);
    if InUse(topP) {
      var sorted := lib.sort(probs);
      assert Sorts(probs, sorted);
      assert probs[j] in multiset(sorted);
      var was := Somewhere(probs[j], sorted);
      DroppedIsBehind(s, sorted, was);
      assert sorted[i] in multiset(sorted);
      at := Somewhere(sorted[i], probs);
    } else {
      at := j;
      HasId(s, j);
    }
  }

  lemma DroppedByTopK<G(!new)>(lib: Library<G>, logits: seq<real>, params: Params, i: nat, id: nat)
    requires lib.Ok() && TemperatureOf(params) > 0.0
    requires i < |Survivors(lib, logits, params)| && id < |logits|
    requires !Ids(TopK(lib, Scaled(logits, TemperatureOf(params)), params.topK), id)
    ensures var token := Survivors(lib, logits, params)[i].id; token < |logits| && logits[id] <= logits[token]
  {
    var t := TemperatureOf(params);
    var kept, probs := TopK(lib, Scaled(logits, t), params.topK), Candidates(lib, logits, params, t);
    TopKKeepsTheBest(lib, logits, t, params.topK);
    var at := SurvivorIsCandidate(lib, probs, params.topP, i);
    assert probs[at].id == kept[at].id;
  }

  lemma DroppedByTopP<G(!new)>(lib: Library<G>, logits: seq<real>, params: Params, i: nat, j: nat)
    requires lib.Ok() && TemperatureOf(params) > 0.0 && logits != []
    requires i < |Survivors(lib, logits, params)|
    requires var probs := Candidates(lib, logits, params, TemperatureOf(params));
             j < |probs| && !Ids(Survivors(lib, logits, params), probs[j].id)
    ensures var probs := Candidates(lib, logits, params, TemperatureOf(params));
            var token := Survivors(lib, logits, params)[i].id;
            token < |logits| && probs[j].id < |logits| && logits[probs[j].id] <= logits[token]
  {
    CandidatesAreADistribution(lib, logits, params);
    var at := TopPKeepsTheBest(lib, Candidates(lib, logits, params, TemperatureOf(params)), params.topP, i, j);
  }

  // A token outside the survivors has no larger logit than any survivor.
  lemma SurvivorsOutrank<G(!new)>(lib: Library<G>, logits: seq<real>, params: Params, i: nat, id: nat)
    requires lib.Ok() && TemperatureOf(params) > 0.0 && logits != []
    requires i < |Survivors(lib, logits, params)| && id < |logits| && !Ids(Survivors(lib, logits, params), id)
    ensures var token := Survivors(lib, logits, params)[i].id; token < |logits| && logits[id] <= logits[token]
  {
    var kept := TopK(lib, Scaled(logits, TemperatureOf(params)), params.topK);
    if Ids(kept, id) {
      var j :| 0 <= j < |kept| && kept[j].id == id;
      assert Candidates(lib, logits, params, TemperatureOf(params))[j].id == id;
      DroppedByTopP(lib, logits, params, i, j);
    } else {
      DroppedByTopK(lib, logits, params, i, id);
    }
  }

  lemma SurvivorsOfOne<G(!new)>(lib: Library<G>, logits: seq<real>, params: Params, i: nat, j: nat)
    requires lib.Ok() && TemperatureOf(params) > 0.0 && logits != [] && params.topK == Some(1)
    requires i < |Survivors(lib, logits, params)| && j < |Survivors(lib, logits, params)|
    ensures Survivors(lib, logits, params)[i].id == Survivors(lib, logits, params)[j].id
  {
    var probs := Candidates(lib, logits, params, TemperatureOf(params));
    TopKKeepsTheBest(lib, logits, TemperatureOf(params), params.topK);
    assert |probs| == 1;
    var atI := SurvivorIsCandidate(lib, probs, params.topP, i);
    var atJ := SurvivorIsCandidate(lib, probs, params.topP, j);
  }

  // The token is a survivor, and none that either cut dropped beats it; with
  // k = 1 nothing beats it at all.
  lemma SampledToken<G(!new)>(lib: Library<G>, logits: seq<real>, params: Params, rng: G)
    requires lib.Ok() && TemperatureOf(params) > 0.0 && logits != []
    ensures var token := Sampled(lib, logits, params, rng).0;
            && token < |logits| && Ids(Survivors(lib, logits, params), token)
            && (forall id :: 0 <= id < |logits| && !Ids(Survivors(lib, logits, params), id) ==> logits[id] <= logits[token])
            && (params.topK == Some(1) ==> forall id :: 0 <= id < |logits| ==> logits[id] <= logits[token])
  {
    var s := Survivors(lib, logits, params);
    SurvivorsAreADistribution(lib, logits, params);
    assert Weights(s)[0] > 0.0;
    assert Chooses(Weights(s), lib.choose(Weights(s), rng).0);
    var i := lib.choose(Weights(s), rng).0;
    CandidatesAreADistribution(lib, logits, params);
    var at := SurvivorIsCandidate(lib, Candidates(lib, logits, params, TemperatureOf(params)), params.topP, i);
    HasId(s, i);
    forall id | 0 <= id < |logits| && !Ids(s, id) ensures logits[id] <= logits[s[i].id] {
      SurvivorsOutrank(lib, logits, params, i, id);
    }
    if params.topK == Some(1) {
      forall id | 0 <= id < |logits| && Ids(s, id) ensures id == s[i].id {
        var j :| 0 <= j < |s| && s[j].id == id;
        SurvivorsOfOne(lib, logits, params, i, j);
      }
    }
  }

  // ---- Which survivor is sampled -------------------------------------------

  lemma DistinctSorted(s: seq<Scored>, r: seq<Scored>, n: nat, i: nat, j: nat)
    requires DistinctIds(s) && Sorts(s, r) && i < j < n <= |r|
    ensures r[i].id != r[j].id
  {
    if r[i].id == r[j].id {
      assert r[i] in multiset(r) && r[j] in multiset(r);
      var a := Somewhere(r[i], s);
      var b := Somewhere(r[j], s);
      assert a == b;
      TwoPlaces(r, i, j);
      OnePlace(s, r[i]);
    }
  }

  // No token survives twice.
  lemma SurvivorsAreDistinct<G(!new)>(lib: Library<G>, logits: seq<real>, params: Params)
    requires lib.Ok() && TemperatureOf(params) > 0.0 && logits != []
    ensures DistinctIds(Survivors(lib, logits, params))
  {
    CandidatesAreADistribution(lib, logits, params);
    if InUse(params.topP) {
      var probs := Candidates(lib, logits, params, TemperatureOf(params));
      var sorted, s := lib.sort(probs), Survivors(lib, logits, params);
      forall i, j | 0 <= i < j < |s| ensures s[i].id != s[j].id {
        DistinctSorted(probs, sorted, |s|, i, j);
      }
    }
  }

  // The token is the survivor at the index that the weighted choice answers for
  // the survivors' weights, and the state handed back is the choice's own.
  lemma SampledIsChosen<G(!new)>(lib: Library<G>, logits: seq<real>, params: Params, rng: G)
    requires lib.Ok() && TemperatureOf(params) > 0.0 && logits != []
    ensures var s := Survivors(lib, logits, params);
            var (j, rng') := lib.choose(Weights(s), rng);
            j < |s| && Sampled(lib, logits, params, rng) == (s[j].id, rng')
  {
    var s := Survivors(lib, logits, params);
    SurvivorsAreADistribution(lib, logits, params);
    assert Weights(s)[0] > 0.0;
    assert Chooses(Weights(s), lib.choose(Weights(s), rng).0);
  }

  // So the tokens differ exactly when the choices do, and every survivor that the
  // choice can answer is sampled for some state.
  lemma ChoiceDecides<G(!new)>(lib: Library<G>, logits: seq<real>, params: Params, rng: G, other: G)
    requires lib.Ok() && TemperatureOf(params) > 0.0 && logits != []
    ensures var w := Weights(Survivors(lib, logits, params));
            Sampled(lib, logits, params, rng).0 == Sampled(lib, logits, params, other).0
            <==> lib.choose(w, rng).0 == lib.choose(w, other).0
  {
    SampledIsChosen(lib, logits, params, rng);
    SampledIsChosen(lib, logits, params, other);
    SurvivorsAreDistinct(lib, logits, params);
  }

  // A temperature of zero or less takes the first largest logit, and draws nothing.
  lemma GreedyTakesTheFirstLargest<G(!new)>(lib: Library<G>, logits: seq<real>, params: Params, rng: G)
    requires lib.Ok() && params.temperature.Some? && params.temperature.value <= 0.0
    ensures var (token, rng') := Sampled(lib, logits, params, rng);
            && rng' == rng
            && (logits != [] ==> token < |logits|)
            && (forall id :: 0 <= id < |logits| ==> logits[id] <= logits[token])
            && forall id :: 0 <= id < token ==> logits[id] < logits[token]
  {
  }

  // No temperature means a temperature of one.
  lemma DefaultTemperature<G(!new)>(lib: Library<G>, logits: seq<real>, params: Params, rng: G)
    requires lib.Ok() && params.temperature.None?
    ensures Sampled(lib, logits, params, rng) == Sampled(lib, logits, params.(temperature := Some(1.0)), rng)
  {
  }

  lemma NoLogits<G(!new)>(lib: Library<G>, params: Params, rng: G)
    requires lib.Ok()
    ensures Sampled(lib, [], params, rng) == (0, rng)
  {
    if TemperatureOf(params) > 0.0 {
      var probs := Candidates(lib, [], params, TemperatureOf(params));
      assert Scaled([], TemperatureOf(params)) == [] && probs == [];
      assert Sorts(probs, lib.sort(probs));
    }
  }

  // ---- How likely each candidate is ----------------------------------------

  // m is the largest of the candidates' logits over the temperature.
  ghost predicate LargestScore(c: seq<Scored>, logits: seq<real>, t: real, m: real)
    requires t > 0.0 && forall i :: 0 <= i < |c| ==> c[i].id < |logits|
  {
    && (forall i :: 0 <= i < |c| ==> logits[c[i].id] / t <= m)
    && exists i :: 0 <= i < |c| && logits[c[i].id] / t == m
  }

  lemma ExpsArePositive(exp: real -> real, s: seq<Scored>, max: real)
    requires forall x :: exp(x) > 0.0
    ensures Positive(ExpsLess(exp, s, max))
  {
  }

  lemma NormalisedEntry(e: seq<Scored>, i: nat)
    requires i < |e| && Sum(e) > 0.0
    ensures |Normalised(e)| == |e| && Normalised(e)[i] == Scored(e[i].id, e[i].value / Sum(e))
  {
  }

  lemma ExpsEntry(exp: real -> real, s: seq<Scored>, max: real, i: nat)
    requires i < |s|
    ensures ExpsLess(exp, s, max)[i] == Scored(s[i].id, exp(s[i].value - max))
  {
  }

  // Softmax, entry by entry.
  lemma SoftmaxShare(exp: real -> real, s: seq<Scored>, max: real, total: real, i: nat)
    requires i < |s| && max == Highest(s) && total == Sum(ExpsLess(exp, s, max)) && total > 0.0
    ensures |Softmax(exp, s)| == |s|
    ensures Softmax(exp, s)[i] == Scored(s[i].id, exp(s[i].value - max) / total)
  {
    NormalisedEntry(ExpsLess(exp, s, max), i);
    ExpsEntry(exp, s, max, i);
  }

  // A weight that is the exponential of its token's logit over the temperature,
  // less m, as a share of the total.
  predicate FollowsLogit(exp: real -> real, w: Scored, logits: seq<real>, t: real, m: real, total: real)
    requires t > 0.0 && total > 0.0
  {
    w.id < |logits| && w.value == exp(logits[w.id] / t - m) / total
  }

  lemma SoftmaxFollows(exp: real -> real, s: seq<Scored>, logits: seq<real>, t: real) returns (m: real, total: real)
    requires (forall x :: exp(x) > 0.0) && s != [] && t > 0.0 && ScoresOf(s, logits, t)
    ensures total > 0.0 && |Softmax(exp, s)| == |s|
    ensures forall i :: 0 <= i < |s| ==> Softmax(exp, s)[i].id == s[i].id && FollowsLogit(exp, Softmax(exp, s)[i], logits, t, m, total)
    ensures m == Highest(s)
  {
    m := Highest(s);
    ExpsArePositive(exp, s, m);
    SumIsPositive(ExpsLess(exp, s, m));
    total := Sum(ExpsLess(exp, s, m));
    SoftmaxShare(exp, s, m, total, 0);
    forall i | 0 <= i < |s|
      ensures Softmax(exp, s)[i].id == s[i].id && FollowsLogit(exp, Softmax(exp, s)[i], logits, t, m, total)
    {
      SoftmaxShare(exp, s, m, total, i);
    }
  }

  lemma HighestIsLargest(s: seq<Scored>, c: seq<Scored>, logits: seq<real>, t: real)
    requires t > 0.0 && s != [] && ScoresOf(s, logits, t) && |c| == |s|
    requires forall i :: 0 <= i < |s| ==> c[i].id == s[i].id
    ensures (forall i :: 0 <= i < |c| ==> c[i].id < |logits|) && LargestScore(c, logits, t, Highest(s))
  {
    var at :| 0 <= at < |s| && s[at].value == Highest(s);
    assert logits[c[at].id] / t == Highest(s);
  }

  // Every weight is the exponential of its token's logit over the temperature, less
  // the largest such quotient, as a share of one total.
  ghost predicate Proportional(exp: real -> real, c: seq<Scored>, logits: seq<real>, t: real, m: real, total: real) {
    && t > 0.0 && total > 0.0
    && (forall i :: 0 <= i < |c| ==> c[i].id < |logits|)
    && LargestScore(c, logits, t, m)
    && forall i :: 0 <= i < |c| ==> FollowsLogit(exp, c[i], logits, t, m, total)
  }

  lemma SoftmaxIsProportional(exp: real -> real, s: seq<Scored>, logits: seq<real>, t: real) returns (m: real, total: real)
    requires (forall x :: exp(x) > 0.0) && s != [] && t > 0.0 && ScoresOf(s, logits, t)
    ensures Proportional(exp, Softmax(exp, s), logits, t, m, total)
  {
    m, total := SoftmaxFollows(exp, s, logits, t);
    HighestIsLargest(s, Softmax(exp, s), logits, t);
  }

  lemma KeptScores<G(!new)>(lib: Library<G>, logits: seq<real>, t: real, topK: Option<nat>)
    requires lib.Ok() && t > 0.0 && logits != []
    ensures var kept := TopK(lib, Scaled(logits, t), topK); kept != [] && ScoresOf(kept, logits, t)
    ensures forall x :: lib.exp(x) > 0.0
  {
    TopKKeepsTheBest(lib, logits, t, topK);
  }

  // So are the weights of the candidates.
  lemma WeightsFollowLogits<G(!new)>(lib: Library<G>, logits: seq<real>, params: Params) returns (m: real, total: real)
    requires lib.Ok() && TemperatureOf(params) > 0.0 && logits != []
    ensures Proportional(lib.exp, Candidates(lib, logits, params, TemperatureOf(params)), logits, TemperatureOf(params), m, total)
  {
    var t := TemperatureOf(params);
    KeptScores(lib, logits, t, params.topK);
    m, total := SoftmaxIsProportional(lib.exp, TopK(lib, Scaled(logits, t), params.topK), logits, t);
  }
}
