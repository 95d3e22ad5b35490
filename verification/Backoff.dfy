// Exponential backoff with jitter (crates/inference-remote-core/src/backoff.rs),
// with f64 read as real.  Durations are nanosecond counts.
module Backoff {
  import opened Wrappers

  datatype JitterKind = NoJitter | Equal | Full | Unknown

  datatype BackoffPolicy = BackoffPolicy(initial: nat, max: nat, multiplier: real, jitter: JitterKind)

  function AsMillis(d: nat): nat {
    d / NANOS_PER_MILLI
  }

  function FromMillis(ms: nat): nat {
    ms * NANOS_PER_MILLI
  }

  // `attempt as i32`
  function AsI32(x: u32): int {
    if x < SIGN_CHANGE then x else x - U32_SPAN
  }

  function Pow(m: real, n: nat): real {
    if n == 0 then 1.0 else m * Pow(m, n - 1)
  }

  // `m.powi(e)`; `None` where the floating-point result is not a finite number.
  function Powi(m: real, e: int): Option<real> {
    if e >= 0 then Some(Pow(m, e))
    else if m == 0.0 then None
    else Some(Pow(1.0 / m, -e))
  }

  function Min(a: real, b: real): real {
    if a < b then a else b
  }

  // `f64::min` with a non-finite left operand answers the right one.
  function CapTerm(initial: real, factor: Option<real>, max: real): real {
    if factor.None? then max else Min(initial * factor.value, max)
  }

  function Capped(p: BackoffPolicy, attempt: u32): real {
    CapTerm(AsMillis(p.initial) as real, Powi(p.multiplier, AsI32(attempt)), AsMillis(p.max) as real)
  }

  function PseudoRandom01(seed: u32): (r: real)
    ensures 0.0 <= r < 1.0
  {
    ((seed * 2_654_435_761) % U32_SPAN % 10_000) as real / 10_000.0
  }

  // Its values for the first attempts; from the second on, the product wraps.
  lemma FirstPseudoRandoms()
    ensures PseudoRandom01(0) == 0.0 && PseudoRandom01(1) == 0.5761 && PseudoRandom01(2) == 0.4226 && PseudoRandom01(3) == 0.9987
  {
  }

  // `x.max(0.0) as u64`: truncating and saturating.
  function ToU64(x: real): nat {
    if x < 0.0 then 0 else if x.Floor >= U64_SPAN then U64_SPAN - 1 else x.Floor
  }

  function Jittered(kind: JitterKind, c: real, attempt: u32): real {
    match kind
    case NoJitter => c
    case Equal => c * 0.5 + c * PseudoRandom01(attempt) * 0.5
    case Full => c * PseudoRandom01(attempt)
    case Unknown => c
  }

  function DelayMillis(p: BackoffPolicy, attempt: u32): nat {
    ToU64(Jittered(p.jitter, Capped(p, attempt), attempt))
  }

  function ComputeBackoff(p: BackoffPolicy, attempt: u32): nat {
    FromMillis(DelayMillis(p, attempt))
  }

  // ---- Arithmetic ----------------------------------------------------------

  lemma ScaleBetween(c: real, a: real, b: real)
    requires c >= 0.0 && a <= b
    ensures c * a <= c * b
  {
  }

  lemma ToU64Monotone(x: real, y: real)
    requires x <= y
    ensures ToU64(x) <= ToU64(y)
  {
  }

  lemma ToU64OfMillis(x: real, n: nat)
    requires x <= n as real
    ensures ToU64(x) <= n
  {
  }

  lemma {:induction false} PowAtLeastOne(m: real, n: nat)
    requires m >= 1.0
    ensures Pow(m, n) >= 1.0
  {
    if n > 0 {
      PowAtLeastOne(m, n - 1);
      ScaleBetween(m, 1.0, Pow(m, n - 1));
    }
  }

  lemma {:induction false} PowOutgrowsCount(n: nat)
    ensures Pow(2.0, n) >= n as real + 1.0
  {
    if n > 0 {
      PowOutgrowsCount(n - 1);
    }
  }

  lemma {:induction false} PowShrinks(x: real, n: nat)
    requires 0.0 < x <= 1.0
    ensures 0.0 < Pow(x, n + 1) <= Pow(x, n) <= 1.0
  {
    if n > 0 {
      PowShrinks(x, n - 1);
    }
    Product(x, Pow(x, n));
  }

  lemma Product(x: real, y: real)
    requires 0.0 < x <= 1.0 && 0.0 < y
    ensures 0.0 < x * y <= y
  {
  }

  lemma ReciprocalInUnit(m: real)
    requires m >= 1.0
    ensures 0.0 < 1.0 / m <= 1.0
  {
  }

  // ---- The un-capped delay ---------------------------------------------------

  // base * m^n, the un-capped delay under exponent n.
  function GeometricTerm(base: nat, m: real, n: nat): real {
    if n == 0 then base as real else m * GeometricTerm(base, m, n - 1)
  }

  lemma {:induction false} TermIsScaledPower(base: nat, m: real, n: nat)
    ensures GeometricTerm(base, m, n) == base as real * Pow(m, n)
  {
    if n > 0 {
      TermIsScaledPower(base, m, n - 1);
      var b, q := base as real, Pow(m, n - 1);
      assert m * (b * q) == b * (m * q);
    }
  }

  // ---- Bounds on one delay -------------------------------------------------

  lemma JitterInRange(kind: JitterKind, c: real, attempt: u32)
    requires c >= 0.0
    ensures 0.0 <= Jittered(kind, c, attempt) <= c
    ensures kind == Equal ==> c / 2.0 <= Jittered(kind, c, attempt)
  {
    var r := PseudoRandom01(attempt);
    ScaleBetween(c, 0.0, r);
    ScaleBetween(c, r, 1.0);
  }

  lemma JitterOfNegative(kind: JitterKind, c: real, attempt: u32)
    requires c < 0.0
    ensures Jittered(kind, c, attempt) <= 0.0
  {
    ScaleBetween(-c, 0.0, PseudoRandom01(attempt));
    assert -c * PseudoRandom01(attempt) == -(c * PseudoRandom01(attempt));
  }

  // Every delay, for every policy and attempt, is at most the configured maximum.
  lemma DelayAtMostMax(p: BackoffPolicy, attempt: u32)
    ensures ComputeBackoff(p, attempt) <= p.max
  {
    var c := Capped(p, attempt);
    var j := Jittered(p.jitter, c, attempt);
    if c >= 0.0 {
      JitterInRange(p.jitter, c, attempt);
    } else {
      JitterOfNegative(p.jitter, c, attempt);
    }
    ToU64OfMillis(j, AsMillis(p.max));
  }

  // Equal jitter keeps at least half of the capped base, full jitter anything
  // from zero, and none of them exceeds it.
  lemma JitterBounds(p: BackoffPolicy, attempt: u32)
    ensures DelayMillis(p, attempt) <= ToU64(Capped(p, attempt))
    ensures p.jitter == Equal ==> ToU64(Capped(p, attempt) / 2.0) <= DelayMillis(p, attempt)
    ensures p.jitter in {NoJitter, Unknown} ==> DelayMillis(p, attempt) == ToU64(Capped(p, attempt))
  {
    var c := Capped(p, attempt);
    if c >= 0.0 {
      JitterInRange(p.jitter, c, attempt);
      ToU64Monotone(Jittered(p.jitter, c, attempt), c);
      if p.jitter == Equal {
        ToU64Monotone(c / 2.0, Jittered(p.jitter, c, attempt));
      }
    } else {
      JitterOfNegative(p.jitter, c, attempt);
    }
  }

  // ---- Growth --------------------------------------------------------------

  lemma PowGrows(m: real, n: nat)
    requires m >= 1.0
    ensures 1.0 <= Pow(m, n) <= Pow(m, n + 1)
  {
    PowAtLeastOne(m, n);
    ScaleBetween(Pow(m, n), 1.0, m);
  }

  lemma PowiGrows(m: real, e: int)
    requires m >= 1.0
    ensures Powi(m, e).Some? && Powi(m, e + 1).Some? && 0.0 < Powi(m, e).value <= Powi(m, e + 1).value
  {
    if e >= 0 {
      PowGrows(m, e);
    } else {
      ReciprocalInUnit(m);
      PowShrinks(1.0 / m, -e - 1);
    }
  }

  lemma MinGrows(a: real, b: real, m: real)
    requires a <= b
    ensures Min(a, m) <= Min(b, m)
  {
  }

  lemma CapTermGrows(i: real, f: Option<real>, g: Option<real>, max: real)
    requires i >= 0.0 && f.Some? && g.Some? && f.value <= g.value
    ensures CapTerm(i, f, max) <= CapTerm(i, g, max)
  {
    var x, y := f.value, g.value;
    ScaleBetween(i, x, y);
    MinGrows(i * x, i * y, max);
  }

  // Where the attempt number becomes negative as an exponent.
  const SIGN_CHANGE: u32 := 0x8000_0000

  // Un-jittered delays do not shrink from one attempt to the next, except
  // perhaps where the exponent changes its sign.
  lemma DelayGrows(p: BackoffPolicy, attempt: u32)
    requires p.multiplier >= 1.0 && p.jitter == NoJitter
    requires attempt + 1 < U32_SPAN && attempt + 1 != SIGN_CHANGE
    ensures ComputeBackoff(p, attempt) <= ComputeBackoff(p, attempt + 1)
  {
    var e := AsI32(attempt);
    PowiGrows(p.multiplier, e);
    CapTermGrows(AsMillis(p.initial) as real, Powi(p.multiplier, e), Powi(p.multiplier, e + 1), AsMillis(p.max) as real);
    ToU64Monotone(Capped(p, attempt), Capped(p, attempt + 1));
  }

  // The longest delay in milliseconds that a policy can ask for.
  function LongestMillis(p: BackoffPolicy): nat {
    if AsMillis(p.max) < U64_SPAN then AsMillis(p.max) else U64_SPAN - 1
  }

  // The un-capped delay under the exponent -n.
  function ShrunkMillis(p: BackoffPolicy, n: nat): real
    requires p.multiplier > 0.0
  {
    GeometricTerm(AsMillis(p.initial), 1.0 / p.multiplier, n)
  }

  lemma {:induction false} PowOfOne(n: nat)
    ensures Pow(1.0, n) == 1.0
  {
    if n > 0 {
      PowOfOne(n - 1);
    }
  }

  lemma ScaleBelow(c: real, x: real)
    requires c > 0.0 && x < 1.0
    ensures c * x < c
  {
  }

  lemma ReciprocalBelowOne(m: real)
    requires m > 1.0
    ensures 0.0 < 1.0 / m < 1.0
  {
  }

  // Powers of a number below one stay below it.
  lemma PowBelowOne(x: real, n: nat)
    requires 0.0 < x < 1.0
    ensures 0.0 < Pow(x, n + 1) < 1.0
  {
    PowShrinks(x, n);
    ScaleBelow(Pow(x, n), x);
  }

  // A whole number lies strictly between the truncations of what is below it
  // and of what is not.
  lemma TruncationSeparates(low: real, whole: nat, high: real)
    requires 0.0 <= low < whole as real <= high && whole < U64_SPAN
    ensures ToU64(low) < whole <= ToU64(high)
  {
  }

  // The delays on the two sides of the sign change: after < i <= before.
  lemma CollapseExactly(i: nat, longest: nat, max: nat, before: real, after: real)
    requires 0.0 <= after < i as real <= before
    requires longest == if max < U64_SPAN then max else U64_SPAN - 1
    ensures ToU64(Min(before, max as real)) <= ToU64(Min(after, max as real)) <==> longest as real <= after
  {
    if after < longest as real {
      var whole := if i < longest then i else longest;
      assert Min(after, max as real) == after;
      TruncationSeparates(after, whole, Min(before, max as real));
    } else {
      ToU64Monotone(longest as real, Min(after, max as real));
    }
  }

  lemma CapOf(i: real, q: real, term: real, max: real)
    requires term == i * q
    ensures CapTerm(i, Some(q), max) == Min(term, max)
  {
  }

  // The two delays around the sign change, with their exponents n and -(n + 1).
  lemma DelaysAtSignChange(p: BackoffPolicy, n: u32)
    requires p.multiplier > 0.0 && p.jitter == NoJitter && n + 1 == SIGN_CHANGE
    ensures Capped(p, n) == Min(GeometricTerm(AsMillis(p.initial), p.multiplier, n), AsMillis(p.max) as real)
    ensures Capped(p, n + 1) == Min(ShrunkMillis(p, n + 1), AsMillis(p.max) as real)
  {
    var i, m, max := AsMillis(p.initial), p.multiplier, AsMillis(p.max) as real;
    assert AsI32(n) == n && AsI32(n + 1) == -(n + 1);
    TermIsScaledPower(i, m, n);
    TermIsScaledPower(i, 1.0 / m, n + 1);
    CapOf(i as real, Pow(m, n), GeometricTerm(i, m, n), max);
    CapOf(i as real, Pow(1.0 / m, n + 1), ShrunkMillis(p, n + 1), max);
  }

  lemma GrownIsAbove(i: nat, m: real, n: nat)
    requires m >= 1.0
    ensures i as real <= GeometricTerm(i, m, n)
  {
    TermIsScaledPower(i, m, n);
    PowAtLeastOne(m, n);
    ScaleBetween(i as real, 1.0, Pow(m, n));
  }

  lemma ShrunkIsBelow(i: nat, x: real, n: nat)
    requires i > 0 && 0.0 < x < 1.0
    ensures 0.0 <= GeometricTerm(i, x, n + 1) < i as real
  {
    TermIsScaledPower(i, x, n + 1);
    PowBelowOne(x, n);
    ScaleBelow(i as real, Pow(x, n + 1));
    ScaleBetween(i as real, 0.0, Pow(x, n + 1));
  }

  lemma CollapseOfStrict(p: BackoffPolicy, n: u32)
    requires p.multiplier > 1.0 && p.jitter == NoJitter && AsMillis(p.initial) > 0 && n + 1 == SIGN_CHANGE
    ensures ToU64(Capped(p, n)) <= ToU64(Capped(p, n + 1)) <==> LongestMillis(p) as real <= ShrunkMillis(p, n + 1)
  {
    var i := AsMillis(p.initial);
    ReciprocalBelowOne(p.multiplier);
    GrownIsAbove(i, p.multiplier, n);
    ShrunkIsBelow(i, 1.0 / p.multiplier, n);
    DelaysAtSignChange(p, n);
    CollapseExactly(i, LongestMillis(p), AsMillis(p.max), GeometricTerm(i, p.multiplier, n), ShrunkMillis(p, n + 1));
  }

  lemma NoCollapseOfFlat(p: BackoffPolicy, n: u32)
    requires p.multiplier >= 1.0 && p.jitter == NoJitter && n + 1 == SIGN_CHANGE
    requires p.multiplier == 1.0 || AsMillis(p.initial) == 0
    ensures Capped(p, n) == Capped(p, n + 1)
  {
    var i := AsMillis(p.initial);
    DelaysAtSignChange(p, n);
    TermIsScaledPower(i, p.multiplier, n);
    TermIsScaledPower(i, 1.0 / p.multiplier, n + 1);
    if p.multiplier == 1.0 {
      PowOfOne(n);
      PowOfOne(n + 1);
    }
  }

  lemma MillisOrder(a: nat, b: nat)
    ensures FromMillis(a) <= FromMillis(b) <==> a <= b
  {
  }

  // Exactly when un-jittered delays do not shrink: at every attempt but one, and
  // at that one if nothing grows in the first place or the cap is so low that
  // even the collapsed delay reaches it.
  lemma DelayGrowsExactly(p: BackoffPolicy, attempt: u32)
    requires p.multiplier >= 1.0 && p.jitter == NoJitter && attempt + 1 < U32_SPAN
    ensures ComputeBackoff(p, attempt) <= ComputeBackoff(p, attempt + 1)
       <==> || attempt + 1 != SIGN_CHANGE
            || AsMillis(p.initial) == 0
            || p.multiplier == 1.0
            || LongestMillis(p) as real <= ShrunkMillis(p, attempt + 1)
  {
    if attempt + 1 != SIGN_CHANGE {
      DelayGrows(p, attempt);
    } else {
      MillisOrder(DelayMillis(p, attempt), DelayMillis(p, attempt + 1));
      if p.multiplier == 1.0 || AsMillis(p.initial) == 0 {
        NoCollapseOfFlat(p, attempt);
      } else {
        CollapseOfStrict(p, attempt);
      }
    }
  }

  // The exception is real: doubling from 1 ms, capped at one second, attempt
  // 2^31 - 1 waits the full second and attempt 2^31 does not wait at all.
  lemma DelayCollapsesAtSignChange()
    ensures var p := BackoffPolicy(NANOS_PER_MILLI, 1000 * NANOS_PER_MILLI, 2.0, NoJitter);
            ComputeBackoff(p, SIGN_CHANGE - 1) == p.max && ComputeBackoff(p, SIGN_CHANGE) == 0
  {
    var p := BackoffPolicy(NANOS_PER_MILLI, 1000 * NANOS_PER_MILLI, 2.0, NoJitter);
    PowOutgrowsCount(SIGN_CHANGE - 1);
    assert Capped(p, SIGN_CHANGE - 1) == 1000.0;
    PowShrinks(0.5, SIGN_CHANGE - 1);
    assert Capped(p, SIGN_CHANGE) <= 0.5;
  }

  // Doubling from 100 ms, capped at two seconds, in nanoseconds; less than a whole
  // millisecond does not count.
  lemma GrowsAndCaps()
    ensures var p := BackoffPolicy(100_000_000, 2_000_000_000, 2.0, NoJitter);
            && ComputeBackoff(p, 0) == 100_000_000 && ComputeBackoff(p, 1) == 200_000_000
            && ComputeBackoff(p, 2) == 400_000_000 && ComputeBackoff(p, 10) == 2_000_000_000
            && ComputeBackoff(p.(initial := 1_999_999), 0) == 1_000_000
  {
    var p := BackoffPolicy(100_000_000, 2_000_000_000, 2.0, NoJitter);
    assert Pow(2.0, 1) == 2.0 && Pow(2.0, 2) == 4.0;
    PowOutgrowsCount(10);
    assert Pow(2.0, 5) == 32.0;
    assert Pow(2.0, 10) == 1024.0 by {
      assert Pow(2.0, 7) == 128.0;
      assert Pow(2.0, 9) == 512.0;
    }
  }

  // ---- Sums of delays ------------------------------------------------------

  // base + base * m + ... + base * m^(n-1)
  function GeometricSum(base: nat, m: real, n: nat): real {
    if n == 0 then 0.0 else GeometricSum(base, m, n - 1) + GeometricTerm(base, m, n - 1)
  }

  // The closed form, multiplied out: sum * (m - 1) = base * (m^n - 1).
  lemma {:induction false} GeometricClosedForm(base: nat, m: real, n: nat)
    ensures GeometricSum(base, m, n) * (m - 1.0) == base as real * (Pow(m, n) - 1.0)
  {
    Telescopes(base, m, n);
    TermIsScaledPower(base, m, n);
  }

  lemma {:induction false} Telescopes(base: nat, m: real, n: nat)
    ensures GeometricSum(base, m, n) * (m - 1.0) == GeometricTerm(base, m, n) - base as real
  {
    if n > 0 {
      Telescopes(base, m, n - 1);
      var s, t := GeometricSum(base, m, n - 1), GeometricTerm(base, m, n - 1);
      assert (s + t) * (m - 1.0) == s * (m - 1.0) + (m * t - t);
    }
  }

  lemma PowiAtMostPow(m: real, attempt: u32)
    requires m >= 1.0
    ensures Powi(m, AsI32(attempt)).Some? && 0.0 < Powi(m, AsI32(attempt)).value <= Pow(m, attempt)
  {
    PowAtLeastOne(m, attempt);
    var e := AsI32(attempt);
    if e < 0 {
      ReciprocalInUnit(m);
      PowShrinks(1.0 / m, -e);
    }
  }

  lemma CapUnder(i: real, f: real, q: real, term: real, max: real)
    requires i >= 0.0 && f <= q && term == i * q
    ensures CapTerm(i, Some(f), max) <= term
  {
    ScaleBetween(i, f, q);
  }

  lemma CappedFactor(i: nat, m: real, attempt: u32, max: real)
    requires m >= 1.0
    ensures CapTerm(i as real, Powi(m, AsI32(attempt)), max) <= GeometricTerm(i, m, attempt)
  {
    PowiAtMostPow(m, attempt);
    TermIsScaledPower(i, m, attempt);
    CapUnder(i as real, Powi(m, AsI32(attempt)).value, Pow(m, attempt), GeometricTerm(i, m, attempt), max);
  }

  function NonNegative(x: real): real {
    if x < 0.0 then 0.0 else x
  }

  lemma CappedWithinTerm(p: BackoffPolicy, attempt: u32)
    requires attempt < SIGN_CHANGE || p.multiplier >= 1.0
    ensures Capped(p, attempt) <= GeometricTerm(AsMillis(p.initial), p.multiplier, attempt)
  {
    if attempt < SIGN_CHANGE {
      TermIsScaledPower(AsMillis(p.initial), p.multiplier, attempt);
    } else {
      CappedFactor(AsMillis(p.initial), p.multiplier, attempt, AsMillis(p.max) as real);
    }
  }

  lemma DelayWithinCapped(p: BackoffPolicy, attempt: u32)
    ensures DelayMillis(p, attempt) as real <= NonNegative(Capped(p, attempt))
  {
    var c := Capped(p, attempt);
    var j := Jittered(p.jitter, c, attempt);
    if c >= 0.0 {
      JitterInRange(p.jitter, c, attempt);
      TruncationShrinks(j);
    } else {
      JitterOfNegative(p.jitter, c, attempt);
    }
  }

  lemma DelayAtMostLongest(p: BackoffPolicy, attempt: u32)
    ensures DelayMillis(p, attempt) <= LongestMillis(p)
  {
    var c, max := Capped(p, attempt), AsMillis(p.max);
    if c >= 0.0 {
      JitterInRange(p.jitter, c, attempt);
    } else {
      JitterOfNegative(p.jitter, c, attempt);
    }
    ToU64Monotone(Jittered(p.jitter, c, attempt), max as real);
  }

  // ---- Where the geometric bound holds ---------------------------------------

  // The condition under which a delay is at most initial * m^attempt: the exponent
  // keeps its sign, or its change does not turn a small factor into a large one, or
  // the cap is below the term anyway.
  predicate StaysWithinTerm(p: BackoffPolicy, attempt: u32) {
    || attempt < SIGN_CHANGE
    || p.multiplier >= 1.0 || p.multiplier <= -1.0
    || (p.multiplier != 0.0 && AsMillis(p.initial) == 0)
    || (p.multiplier < 0.0 && attempt % 2 == 1)
    || LongestMillis(p) as real <= NonNegative(GeometricTerm(AsMillis(p.initial), p.multiplier, attempt))
  }

  // No jitter is applied.
  predicate Plain(kind: JitterKind) {
    kind == NoJitter || kind == Unknown
  }

  predicate WithinTerm(p: BackoffPolicy, attempt: u32) {
    DelayMillis(p, attempt) as real <= NonNegative(GeometricTerm(AsMillis(p.initial), p.multiplier, attempt))
  }

  lemma {:induction false} PowOfNegated(x: real, n: nat)
    ensures Pow(-x, n) == if n % 2 == 0 then Pow(x, n) else -Pow(x, n)
  {
    if n > 0 {
      PowOfNegated(x, n - 1);
      NegatedProducts(x, Pow(x, n - 1));
    }
  }

  lemma NegatedProducts(x: real, y: real)
    ensures (-x) * y == -(x * y) && (-x) * (-y) == x * y
  {
  }

  lemma NegatedReciprocal(m: real)
    requires m != 0.0
    ensures 1.0 / (-m) == -(1.0 / m)
  {
  }

  lemma PowiOfNegated(m: real, e: int)
    requires m != 0.0
    ensures Powi(m, e).Some?
    ensures Powi(-m, e) == Some(if e % 2 == 0 then Powi(m, e).value else -Powi(m, e).value)
  {
    if e >= 0 {
      PowOfNegated(m, e);
    } else {
      NegatedReciprocal(m);
      PowOfNegated(1.0 / m, -e);
    }
  }

  lemma {:induction false} PowOfPositive(x: real, n: nat)
    requires x > 0.0
    ensures Pow(x, n) > 0.0
  {
    if n > 0 {
      PowOfPositive(x, n - 1);
      ScaleBetween(x, 0.0, Pow(x, n - 1));
      assert x * Pow(x, n - 1) != 0.0;
    }
  }

  lemma EvenTerm(base: nat, m: real, n: nat)
    requires n % 2 == 0
    ensures GeometricTerm(base, -m, n) == GeometricTerm(base, m, n)
  {
    PowOfNegated(m, n);
    TermIsScaledPower(base, m, n);
    TermIsScaledPower(base, -m, n);
  }

  lemma EvenCapped(p: BackoffPolicy, q: BackoffPolicy, attempt: u32)
    requires p.multiplier != 0.0 && q == p.(multiplier := -p.multiplier) && attempt % 2 == 0
    ensures Capped(p, attempt) == Capped(q, attempt)
  {
    PowiOfNegated(p.multiplier, AsI32(attempt));
  }

  // At an even attempt the sign of the multiplier does not matter ...
  lemma EvenAttempt(p: BackoffPolicy, q: BackoffPolicy, attempt: u32)
    requires p.multiplier != 0.0 && q == p.(multiplier := -p.multiplier) && attempt % 2 == 0
    ensures WithinTerm(p, attempt) <==> WithinTerm(q, attempt)
    ensures StaysWithinTerm(p, attempt) <==> StaysWithinTerm(q, attempt)
  {
    EvenCapped(p, q, attempt);
    EvenTerm(AsMillis(p.initial), p.multiplier, attempt);
  }

  // ... and at an odd one a negative multiplier means no delay.
  lemma OddAttempt(p: BackoffPolicy, attempt: u32)
    requires p.multiplier < 0.0 && attempt % 2 == 1 && attempt >= SIGN_CHANGE
    ensures DelayMillis(p, attempt) == 0
  {
    var m, k := -p.multiplier, U32_SPAN - attempt;
    PowiOfNegated(m, -k);
    ReciprocalIsPositive(m);
    PowOfPositive(1.0 / m, k);
    ScaleBetween(AsMillis(p.initial) as real, Powi(p.multiplier, -k).value, 0.0);
    assert Capped(p, attempt) <= 0.0;
    DelayWithinCapped(p, attempt);
  }

  lemma ReciprocalIsPositive(m: real)
    requires m > 0.0
    ensures 1.0 / m > 0.0
  {
  }

  lemma ReciprocalAboveOne(m: real)
    requires 0.0 < m < 1.0
    ensures 1.0 / m > 1.0
  {
  }

  lemma WithinWhileGrowing(p: BackoffPolicy, attempt: u32)
    requires attempt < SIGN_CHANGE || p.multiplier >= 1.0
    ensures WithinTerm(p, attempt)
  {
    CappedWithinTerm(p, attempt);
    DelayWithinCapped(p, attempt);
  }

  lemma WithinWithoutInitial(p: BackoffPolicy, attempt: u32)
    requires p.multiplier != 0.0 && AsMillis(p.initial) == 0
    ensures WithinTerm(p, attempt)
  {
    PowiOfNegated(p.multiplier, AsI32(attempt));
    assert Capped(p, attempt) <= 0.0;
    DelayWithinCapped(p, attempt);
  }

  // Within the condition the bound holds, whatever the jitter.
  lemma DelayWithinGeometricTerm(p: BackoffPolicy, attempt: u32)
    requires StaysWithinTerm(p, attempt)
    ensures WithinTerm(p, attempt)
  {
    if attempt < SIGN_CHANGE || p.multiplier >= 1.0 {
      WithinWhileGrowing(p, attempt);
    } else if p.multiplier < 0.0 && attempt % 2 == 1 {
      OddAttempt(p, attempt);
    } else if p.multiplier <= -1.0 {
      var q := p.(multiplier := -p.multiplier);
      EvenAttempt(p, q, attempt);
      WithinWhileGrowing(q, attempt);
    } else if p.multiplier != 0.0 && AsMillis(p.initial) == 0 {
      WithinWithoutInitial(p, attempt);
    } else {
      DelayAtMostLongest(p, attempt);
    }
  }

  // A whole number of milliseconds that neither the cap nor the growth cuts off
  // lies between the term and the delay.
  lemma GrowthPasses(i: nat, longest: nat, max: nat, grown: real, term: real)
    requires 0.0 <= term < i as real <= grown && term < longest as real
    requires longest == if max < U64_SPAN then max else U64_SPAN - 1
    ensures term < ToU64(Min(grown, max as real)) as real
  {
    var whole := if i < longest then i else longest;
    TruncationSeparates(term, whole, Min(grown, max as real));
  }

  // Past the sign change a multiplier between zero and one makes delays grow.
  lemma DelayPassesTerm(p: BackoffPolicy, attempt: u32)
    requires 0.0 < p.multiplier < 1.0 && Plain(p.jitter) && attempt >= SIGN_CHANGE && AsMillis(p.initial) > 0
    requires GeometricTerm(AsMillis(p.initial), p.multiplier, attempt) < LongestMillis(p) as real
    ensures !WithinTerm(p, attempt)
  {
    var i, m, k := AsMillis(p.initial), p.multiplier, U32_SPAN - attempt;
    var grown := GeometricTerm(i, 1.0 / m, k);
    ReciprocalAboveOne(m);
    GrownIsAbove(i, 1.0 / m, k);
    ShrunkIsBelow(i, m, attempt - 1);
    TermIsScaledPower(i, 1.0 / m, k);
    CapOf(i as real, Pow(1.0 / m, k), grown, AsMillis(p.max) as real);
    assert Capped(p, attempt) == Min(grown, AsMillis(p.max) as real);
    GrowthPasses(i, LongestMillis(p), AsMillis(p.max), grown, GeometricTerm(i, m, attempt));
  }

  // Exactly when an un-jittered delay is at most initial * m^attempt.
  lemma DelayWithinTermExactly(p: BackoffPolicy, attempt: u32)
    requires Plain(p.jitter)
    ensures DelayMillis(p, attempt) as real <= NonNegative(GeometricTerm(AsMillis(p.initial), p.multiplier, attempt))
       <==> StaysWithinTerm(p, attempt)
  {
    if StaysWithinTerm(p, attempt) {
      DelayWithinGeometricTerm(p, attempt);
    } else if p.multiplier == 0.0 {
      assert Capped(p, attempt) == AsMillis(p.max) as real;
    } else if p.multiplier > 0.0 {
      DelayPassesTerm(p, attempt);
    } else {
      var q := p.(multiplier := -p.multiplier);
      EvenAttempt(p, q, attempt);
      DelayPassesTerm(q, attempt);
    }
  }

  // For a multiplier below one a negative exponent breaks the bound: from a
  // multiplier of one half, attempt 2^31 waits the full second, not 2^-2^31 ms.
  lemma DelayJumpsAtSignChange()
    ensures var p := BackoffPolicy(NANOS_PER_MILLI, 1000 * NANOS_PER_MILLI, 0.5, NoJitter);
            && ComputeBackoff(p, SIGN_CHANGE) == p.max
            && GeometricTerm(AsMillis(p.initial), p.multiplier, SIGN_CHANGE) <= 1.0
  {
    var p := BackoffPolicy(NANOS_PER_MILLI, 1000 * NANOS_PER_MILLI, 0.5, NoJitter);
    PowOutgrowsCount(SIGN_CHANGE);
    assert 1.0 / 0.5 == 2.0;
    assert Capped(p, SIGN_CHANGE) == 1000.0;
    TermIsScaledPower(1, 0.5, SIGN_CHANGE);
    PowShrinks(0.5, SIGN_CHANGE);
  }

  lemma WholeMillis(ms: nat)
    ensures FromMillis(ms) % NANOS_PER_MILLI == 0 && AsMillis(FromMillis(ms)) == ms
  {
  }

  lemma TruncationShrinks(x: real)
    requires x >= 0.0
    ensures ToU64(x) as real <= x
  {
  }
}
