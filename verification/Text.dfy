// The string operations of the Rust standard library that the modelled code
// uses: searching, splitting, trimming, and decimal numbers.
module Text {
  import opened Wrappers

  // ---- Searching -----------------------------------------------------------

  predicate MatchesAt(text: string, part: string, i: nat) {
    i + |part| <= |text| && text[i..i + |part|] == part
  }

  predicate Contains(text: string, part: string) {
    exists i :: 0 <= i <= |text| && MatchesAt(text, part, i)
  }

  // The first occurrence from position i on; FoundFirst says what that means.
  function FindFrom(text: string, part: string, i: nat): (r: Option<nat>)
    requires i <= |text|
    ensures r.Some? ==> i <= r.value && r.value + |part| <= |text|
    decreases |text| - i
  {
    if MatchesAt(text, part, i) then Some(i)
    else if i == |text| then None
    else FindFrom(text, part, i + 1)
  }

  lemma {:induction false} FoundFirst(text: string, part: string, i: nat)
    requires i <= |text|
    ensures match FindFrom(text, part, i)
            case Some(k) => MatchesAt(text, part, k) && forall j :: i <= j < k ==> !MatchesAt(text, part, j)
            case None => forall j :: i <= j <= |text| ==> !MatchesAt(text, part, j)
    decreases |text| - i
  {
    if !MatchesAt(text, part, i) && i < |text| {
      FoundFirst(text, part, i + 1);
    }
  }

  // What follows, and what precedes, the first occurrence.
  function After(text: string, part: string): Option<string> {
    match FindFrom(text, part, 0)
    case None => None
    case Some(i) => Some(text[i + |part|..])
  }

  function Before(text: string, part: string): Option<string> {
    match FindFrom(text, part, 0)
    case None => None
    case Some(i) => Some(text[..i])
  }

  lemma FirstMatchIsUnique(text: string, part: string, i: nat)
    requires i <= |text| && MatchesAt(text, part, i)
    requires forall j :: 0 <= j < i ==> !MatchesAt(text, part, j)
    ensures FindFrom(text, part, 0) == Some(i)
  {
    FoundFirst(text, part, 0);
  }

  lemma MatchShifts(pre: string, rest: string, part: string, j: nat)
    ensures MatchesAt(pre + rest, part, |pre| + j) <==> MatchesAt(rest, part, j)
  {
    var text := pre + rest;
    if j + |part| <= |rest| {
      assert text[|pre| + j..|pre| + j + |part|] == rest[j..j + |part|];
    }
  }

  predicate NoneBefore(text: string, part: string, n: nat) {
    forall j :: 0 <= j < n ==> !MatchesAt(text, part, j)
  }

  lemma NoneBeforeShifts(pre: string, rest: string, part: string, n: nat)
    requires NoneBefore(pre + rest, part, |pre|) && NoneBefore(rest, part, n)
    ensures NoneBefore(pre + rest, part, |pre| + n)
  {
    forall j | |pre| <= j < |pre| + n ensures !MatchesAt(pre + rest, part, j) {
      MatchShifts(pre, rest, part, j - |pre|);
    }
  }

  lemma NoMatch(text: string, part: string)
    requires NoneBefore(text, part, |text| + 1)
    ensures FindFrom(text, part, 0) == None
  {
    FoundFirst(text, part, 0);
  }

  // Text in which no occurrence starts can be skipped.
  lemma FindSkips(pre: string, rest: string, part: string)
    requires part != "" && NoneBefore(pre + rest, part, |pre|)
    ensures FindFrom(pre + rest, part, 0)
         == match FindFrom(rest, part, 0) case None => None case Some(k) => Some(|pre| + k)
  {
    FoundFirst(rest, part, 0);
    match FindFrom(rest, part, 0)
    case Some(k) =>
      NoneBeforeShifts(pre, rest, part, k);
      MatchShifts(pre, rest, part, k);
      FirstMatchIsUnique(pre + rest, part, |pre| + k);
    case None =>
      NoneBeforeShifts(pre, rest, part, |rest| + 1);
      NoMatch(pre + rest, part);
  }

  lemma AfterSkips(pre: string, rest: string, part: string)
    requires part != "" && forall j :: 0 <= j < |pre| ==> !MatchesAt(pre + rest, part, j)
    ensures After(pre + rest, part) == After(rest, part)
  {
    FindSkips(pre, rest, part);
    match FindFrom(rest, part, 0)
    case Some(k) => assert (pre + rest)[|pre| + k + |part|..] == rest[k + |part|..];
    case None =>
  }

  lemma AfterHere(part: string, rest: string)
    ensures After(part + rest, part) == Some(rest)
  {
    assert MatchesAt(part + rest, part, 0);
    FirstMatchIsUnique(part + rest, part, 0);
    assert (part + rest)[|part|..] == rest;
  }

  predicate Lacks(s: string, c: char) {
    forall i :: 0 <= i < |s| ==> s[i] != c
  }

  lemma AfterSkipsPlain(pre: string, rest: string, part: string)
    requires part != "" && Lacks(pre, part[0])
    ensures After(pre + rest, part) == After(rest, part)
  {
    forall j | 0 <= j < |pre| ensures !MatchesAt(pre + rest, part, j) {
      assert (pre + rest)[j] == pre[j];
    }
    AfterSkips(pre, rest, part);
  }

  lemma BeforeFirst(pre: string, c: char, rest: string)
    requires Lacks(pre, c)
    ensures FindFrom(pre + ([c] + rest), [c], 0) == Some(|pre|)
    ensures Before(pre + ([c] + rest), [c]) == Some(pre)
  {
    var text := pre + ([c] + rest);
    assert text[|pre|..|pre| + 1] == [c];
    assert MatchesAt(text, [c], |pre|);
    forall j | 0 <= j < |pre| ensures !MatchesAt(text, [c], j) {
      assert text[j] == pre[j];
    }
    FirstMatchIsUnique(text, [c], |pre|);
  }

  lemma NoneWithout(s: string, c: char)
    requires Lacks(s, c)
    ensures FindFrom(s, [c], 0) == None
  {
    FoundFirst(s, [c], 0);
    forall j | 0 <= j <= |s| ensures !MatchesAt(s, [c], j) {
      if j < |s| {
        assert s[j..j + 1] == [s[j]];
      }
    }
  }

  // ---- Splitting -----------------------------------------------------------

  function Split(s: string, sep: char): (parts: seq<string>)
    ensures parts != []
    decreases |s|
  {
    match FindFrom(s, [sep], 0)
    case None => [s]
    case Some(i) => [s[..i]] + Split(s[i + 1..], sep)
  }

  function SplitOnce(s: string, sep: char): Option<(string, string)> {
    match FindFrom(s, [sep], 0)
    case None => None
    case Some(i) => Some((s[..i], s[i + 1..]))
  }

  lemma SplitFirst(first: string, sep: char, rest: string)
    requires Lacks(first, sep)
    ensures Split(first + ([sep] + rest), sep) == [first] + Split(rest, sep)
    ensures SplitOnce(first + ([sep] + rest), sep) == Some((first, rest))
  {
    BeforeFirst(first, sep, rest);
    assert (first + ([sep] + rest))[|first| + 1..] == rest;
  }

  lemma SplitWhole(s: string, sep: char)
    requires Lacks(s, sep)
    ensures Split(s, sep) == [s]
  {
    NoneWithout(s, sep);
  }

  // ---- Trimming ------------------------------------------------------------

  // The Unicode property White_Space.
  predicate IsSpace(c: char) {
    || '\U{0009}' <= c <= '\U{000D}' || c == ' ' || c == '\U{0085}' || c == '\U{00A0}' || c == '\U{1680}'
    || '\U{2000}' <= c <= '\U{200A}' || c == '\U{2028}' || c == '\U{2029}' || c == '\U{202F}'
    || c == '\U{205F}' || c == '\U{3000}'
  }

  // The letters, digits and signs of a report are no spaces; some that are.
  lemma SpaceExamples()
    ensures IsSpace(' ') && IsSpace('\t') && IsSpace('\n') && IsSpace('\r') && IsSpace('\U{000B}') && IsSpace('\U{00A0}')
    ensures IsSpace('\U{3000}')
    ensures !IsSpace('0') && !IsSpace('a') && !IsSpace('_') && !IsSpace('"') && !IsSpace(':') && !IsSpace('+')
  {
  }

  predicate IsQuote(c: char) {
    c == '"'
  }

  function StripStart(s: string, p: char -> bool): string {
    if s != "" && p(s[0]) then StripStart(s[1..], p) else s
  }

  function StripEnd(s: string, p: char -> bool): string {
    if s != "" && p(s[|s| - 1]) then StripEnd(s[..|s| - 1], p) else s
  }

  function Strip(s: string, p: char -> bool): string {
    StripEnd(StripStart(s, p), p)
  }

  lemma {:induction false} StripStartOf(pre: string, core: string, p: char -> bool)
    requires forall i :: 0 <= i < |pre| ==> p(pre[i])
    requires core != "" && !p(core[0])
    ensures StripStart(pre + core, p) == core
  {
    if pre == "" {
      assert pre + core == core;
    } else {
      assert (pre + core)[1..] == pre[1..] + core;
      StripStartOf(pre[1..], core, p);
    }
  }

  lemma {:induction false} StripEndOf(core: string, post: string, p: char -> bool)
    requires forall i :: 0 <= i < |post| ==> p(post[i])
    requires core != "" && !p(core[|core| - 1])
    ensures StripEnd(core + post, p) == core
    decreases |post|
  {
    var s := core + post;
    if post == "" {
      assert s == core;
    } else {
      assert s[..|s| - 1] == core + post[..|post| - 1];
      StripEndOf(core, post[..|post| - 1], p);
    }
  }

  lemma StripOf(pre: string, core: string, post: string, p: char -> bool)
    requires forall i :: 0 <= i < |pre| ==> p(pre[i])
    requires forall i :: 0 <= i < |post| ==> p(post[i])
    requires core != "" && !p(core[0]) && !p(core[|core| - 1])
    ensures Strip(pre + (core + post), p) == core
  {
    StripStartOf(pre, core + post, p);
    StripEndOf(core, post, p);
  }

  // Trimming cannot remove a character it does not trim.
  lemma StripKeeps(s: string, p: char -> bool, c: char)
    requires c in s && !p(c)
    ensures c in Strip(s, p)
  {
    StripStartKeeps(s, p, c);
    StripEndKeeps(StripStart(s, p), p, c);
  }

  lemma {:induction false} StripStartKeeps(s: string, p: char -> bool, c: char)
    requires c in s && !p(c)
    ensures c in StripStart(s, p)
  {
    if p(s[0]) {
      StripStartKeeps(s[1..], p, c);
    }
  }

  lemma {:induction false} StripEndKeeps(s: string, p: char -> bool, c: char)
    requires c in s && !p(c)
    ensures c in StripEnd(s, p)
  {
    if p(s[|s| - 1]) {
      StripEndKeeps(s[..|s| - 1], p, c);
    }
  }

  // ---- Decimal numbers -----------------------------------------------------

  predicate IsDigit(c: char) {
    '0' <= c <= '9'
  }

  function Digit(d: nat): char
    requires d < 10
  {
    '0' + d as char
  }

  function DigitValue(c: char): nat
    requires IsDigit(c)
  {
    c as int - '0' as int
  }

  function Decimal(n: nat): string {
    if n < 10 then [Digit(n)] else Decimal(n / 10) + [Digit(n % 10)]
  }

  lemma DecimalExamples()
    ensures Decimal(0) == "0" && Decimal(10) == "10" && Decimal(1984) == "1984"
  {
    assert Decimal(1) == "1" && Decimal(19) == "1" + "9" && Decimal(198) == "19" + "8";
  }

  predicate AllDigits(s: string) {
    forall i :: 0 <= i < |s| ==> IsDigit(s[i])
  }

  function Value(s: string): nat
    requires AllDigits(s)
  {
    if s == "" then 0 else 10 * Value(s[..|s| - 1]) + DigitValue(s[|s| - 1])
  }

  // `str::parse::<usize>`, on a 64-bit machine.
  function ParseUsize(s: string): Option<u64> {
    var digits := if s != "" && s[0] == '+' then s[1..] else s;
    if digits == "" || !AllDigits(digits) then None
    else if Value(digits) >= U64_SPAN then None
    else Some(Value(digits))
  }

  lemma ParseExamples()
    ensures ParseUsize("7") == Some(7) && ParseUsize("+7") == Some(7) && ParseUsize("007") == Some(7)
    ensures ParseUsize("") == None && ParseUsize("+") == None && ParseUsize("-7") == None && ParseUsize("7x") == None
  {
    assert "+7"[1..] == "7" && "+"[1..] == "";
    assert Value("00") == 0 && "007"[..2] == "00";
    assert !IsDigit("-7"[0]) && !IsDigit("7x"[1]);
  }

  lemma {:induction false} DecimalRoundTrip(n: nat)
    ensures Decimal(n) != "" && AllDigits(Decimal(n)) && Value(Decimal(n)) == n
  {
    if n < 10 {
      assert Decimal(n)[..0] == "";
    } else {
      var front := Decimal(n / 10);
      DecimalRoundTrip(n / 10);
      assert Decimal(n)[..|front|] == front;
    }
  }

  lemma UsizeRoundTrip(n: u64)
    ensures ParseUsize(Decimal(n)) == Some(n)
  {
    DecimalRoundTrip(n);
  }
}
