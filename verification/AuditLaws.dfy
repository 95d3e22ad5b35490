// What the audit parser finds in text the audit printer wrote.
module AuditLaws {
  import opened Wrappers
  import opened Text
  import opened Audit
  import opened AuditSearch

  // ---- Reading a body back -------------------------------------------------

  predicate Spaces(s: string) {
    forall i :: 0 <= i < |s| ==> IsSpace(s[i])
  }

  predicate Wordlike(key: string) {
    key != "" && forall i :: 0 <= i < |key| ==> 'a' <= key[i] <= 'z' || key[i] == '_'
  }

  lemma LineTrims(indent: string, key: string, digits: string, ws: string)
    requires Spaces(indent) && Spaces(ws) && digits != "" && AllDigits(digits)
    ensures Strip(("\n" + indent + "\"" + key + "\": " + digits) + ws, IsSpace)
         == ("\"" + key + "\"") + (":" + (" " + digits))
  {
    var core := ("\"" + key + "\"") + (":" + (" " + digits));
    assert "\": " == "\"" + (":" + " ");
    assert ("\n" + indent + "\"" + key + "\": " + digits) + ws == ("\n" + indent) + (core + ws);
    StripOf("\n" + indent, core, ws, IsSpace);
  }

  lemma KeyTrims(key: string)
    requires Wordlike(key)
    ensures Strip(Strip("\"" + key + "\"", IsSpace), IsQuote) == key
  {
    var quoted := "\"" + key + "\"";
    assert quoted == "" + (quoted + "");
    StripOf("", quoted, "", IsSpace);
    assert quoted == "\"" + (key + "\"");
    StripOf("\"", key, "\"", IsQuote);
  }

  lemma ValueTrims(digits: string)
    requires digits != "" && AllDigits(digits)
    ensures Strip(" " + digits, IsSpace) == digits
  {
    assert " " + digits == " " + (digits + "");
    StripOf(" ", digits, "", IsSpace);
  }

  // One printed line, read back.
  lemma LineParses(indent: string, kv: Kv, ws: string, c: CrateCounts)
    requires Spaces(indent) && Spaces(ws) && Wordlike(kv.key)
    ensures ParseToken(Line(indent, kv) + ws, c) == Some(Assign(c, kv.key, kv.value))
  {
    var digits := Decimal(kv.value);
    DecimalRoundTrip(kv.value);
    LineTrims(indent, kv.key, digits, ws);
    SplitFirst("\"" + kv.key + "\"", ':', " " + digits);
    KeyTrims(kv.key);
    ValueTrims(digits);
    UsizeRoundTrip(kv.value);
  }

  lemma LineLacks(indent: string, kv: Kv, c: char)
    requires Lacks(indent, c) && Lacks(kv.key, c) && !IsDigit(c) && c !in "\n\": "
    ensures Lacks(Line(indent, kv), c)
  {
    DecimalLacks(kv.value, c);
  }

  predicate PlainLines(kvs: seq<Kv>, indent: string) {
    && Lacks(indent, ',') && Lacks(indent, '{') && Lacks(indent, '}')
    && forall i :: 0 <= i < |kvs| ==> Lacks(kvs[i].key, ',') && Lacks(kvs[i].key, '{') && Lacks(kvs[i].key, '}')
  }

  lemma ThreeLack(a: string, b: string, rest: string, c: char)
    requires Lacks(a, c) && Lacks(b, c) && Lacks(rest, c)
    ensures Lacks((a + b) + rest, c)
  {
  }

  lemma {:induction false} CountsLack(kvs: seq<Kv>, j: nat, indent: string, tail: string, c: char)
    requires j <= |kvs| && Lacks(indent, c) && Lacks(tail, c) && !IsDigit(c) && c !in "\n\": ,"
    requires forall i :: 0 <= i < |kvs| ==> Lacks(kvs[i].key, c)
    ensures Lacks(CountsThen(kvs, j, indent, tail), c)
    decreases |kvs| - j
  {
    if j < |kvs| {
      var sep, rest := if j > 0 then "," else "", CountsThen(kvs, j + 1, indent, tail);
      CountsLack(kvs, j + 1, indent, tail, c);
      LineThen(sep, indent, kvs[j], rest);
      LineLacks(indent, kvs[j], c);
      ThreeLack(sep, Line(indent, kvs[j]), rest, c);
    }
  }

  // The body from metric j on, without the comma before it.
  function BodyFrom(kvs: seq<Kv>, j: nat, indent: string, ws: string): string
    requires j < |kvs|
  {
    Line(indent, kvs[j]) + CountsThen(kvs, j + 1, indent, ws)
  }

  lemma BodySplits(kvs: seq<Kv>, j: nat, indent: string, ws: string)
    requires j < |kvs| && PlainLines(kvs, indent) && Lacks(ws, ',')
    ensures j + 1 == |kvs| ==> Split(BodyFrom(kvs, j, indent, ws), ',') == [Line(indent, kvs[j]) + ws]
    ensures j + 1 < |kvs| ==>
              Split(BodyFrom(kvs, j, indent, ws), ',')
              == [Line(indent, kvs[j])] + Split(BodyFrom(kvs, j + 1, indent, ws), ',')
  {
    LineLacks(indent, kvs[j], ',');
    if j + 1 == |kvs| {
      SplitWhole(Line(indent, kvs[j]) + ws, ',');
    } else {
      var rest := CountsThen(kvs, j + 2, indent, ws);
      LineThen(",", indent, kvs[j + 1], rest);
      Regroup(",", Line(indent, kvs[j + 1]), rest);
      SplitFirst(Line(indent, kvs[j]), ',', BodyFrom(kvs, j + 1, indent, ws));
    }
  }

  function LastWs(kvs: seq<Kv>, j: nat, ws: string): string {
    if j + 1 == |kvs| then ws else ""
  }

  // Reading the lines one after another takes the counts through `state`.
  lemma {:induction false} BodyParses(kvs: seq<Kv>, j: nat, indent: string, ws: string,
                                      step: (string, CrateCounts) -> Option<CrateCounts>, state: nat -> CrateCounts)
    requires j < |kvs| && PlainLines(kvs, indent) && Lacks(ws, ',')
    requires forall i :: 0 <= i < |kvs| ==> step(Line(indent, kvs[i]) + LastWs(kvs, i, ws), state(i)) == Some(state(i + 1))
    ensures ParseTokens(Split(BodyFrom(kvs, j, indent, ws), ','), state(j), step) == Some(state(|kvs|))
    decreases |kvs| - j
  {
    BodySplits(kvs, j, indent, ws);
    var tokens := Split(BodyFrom(kvs, j, indent, ws), ',');
    if j + 1 == |kvs| {
      assert tokens[1..] == [];
    } else {
      var rest := Split(BodyFrom(kvs, j + 1, indent, ws), ',');
      assert tokens[1..] == rest;
      assert Line(indent, kvs[j]) + "" == Line(indent, kvs[j]);
      BodyParses(kvs, j + 1, indent, ws, step, state);
    }
  }

  // The first j metrics of c.
  function Partial(c: CrateCounts, j: nat): CrateCounts {
    CrateCounts(
      if j > 0 then c.files else 0, if j > 1 then c.loc else 0, if j > 2 then c.unwrapUsed else 0,
      if j > 3 then c.expectUsed else 0, if j > 4 then c.panicMacro else 0, if j > 5 then c.todoMacro else 0,
      if j > 6 then c.unimplementedMacro else 0, if j > 7 then c.boxDynAny else 0,
      if j > 8 then c.placeholderMarker else 0, if j > 9 then c.stubComment else 0,
      if j > 10 then c.placeholderComment else 0, if j > 11 then c.printlnMacro else 0,
      if j > 12 then c.eprintlnMacro else 0, if j > 13 then c.dbgMacro else 0)
  }

  // Keys are told apart by their lengths and first letters.
  lemma AssignStep(c: CrateCounts, j: nat)
    requires j < 14
    ensures Assign(Partial(c, j), Kvs(c)[j].key, Kvs(c)[j].value) == Partial(c, j + 1)
  {
    assert "unwrap_used"[0] == 'u' && "expect_used"[0] == 'e' && "panic_macro"[0] == 'p' && "box_dyn_any"[0] == 'b';
    assert "unimplemented_macro"[0] == 'u' && "placeholder_comment"[0] == 'p';
  }

  lemma ShortWords()
    ensures Wordlike("files") && Wordlike("loc") && Wordlike("dbg_macro") && Wordlike("todo_macro")
    ensures Wordlike("unwrap_used") && Wordlike("expect_used") && Wordlike("panic_macro") && Wordlike("box_dyn_any")
  {
  }

  lemma LongWords()
    ensures Wordlike("stub_comment") && Wordlike("println_macro") && Wordlike("eprintln_macro")
    ensures Wordlike("placeholder_marker")
  {
  }

  lemma LongestWords()
    ensures Wordlike("unimplemented_macro") && Wordlike("placeholder_comment")
  {
  }

  lemma KeysAreWords(c: CrateCounts)
    ensures |Kvs(c)| == 14 && forall i :: 0 <= i < 14 ==> Wordlike(Kvs(c)[i].key)
  {
    ShortWords();
    LongWords();
    LongestWords();
  }

  lemma WordLacks(key: string, c: char)
    requires Wordlike(key) && !('a' <= c <= 'z' || c == '_')
    ensures Lacks(key, c)
  {
  }

  lemma WordsArePlain(kvs: seq<Kv>, indent: string)
    requires forall i :: 0 <= i < |kvs| ==> Wordlike(kvs[i].key)
    requires Spaces(indent)
    ensures PlainKeys(kvs) && PlainLines(kvs, indent) && Lacks(indent, '"')
  {
    forall i | 0 <= i < |kvs|
      ensures Lacks(kvs[i].key, ',') && Lacks(kvs[i].key, '{') && Lacks(kvs[i].key, '}') && Lacks(kvs[i].key, '"')
    {
      WordLacks(kvs[i].key, ',');
    }
  }

  lemma BodyBetweenBraces(kvs: seq<Kv>, indent: string, ws: string, rest: string)
    requires PlainLines(kvs, indent) && Lacks(ws, '}')
    ensures Body(" {" + CountsThen(kvs, 0, indent, ws + ("}" + rest))) == Some(CountsThen(kvs, 0, indent, ws))
  {
    var body, inside := CountsThen(kvs, 0, indent, ws), CountsThen(kvs, 0, indent, ws + ("}" + rest));
    assert inside == body + ("}" + rest) by {
      CountsAppend(kvs, 0, indent, ws);
      CountsAppend(kvs, 0, indent, ws + ("}" + rest));
      Regroup(CountsThen(kvs, 0, indent, ""), ws, "}" + rest);
    }
    assert " {" + inside == " " + ("{" + inside);
    AfterSkipsPlain(" ", "{" + inside, "{");
    AfterHere("{", inside);
    CountsLack(kvs, 0, indent, ws, '}');
    BeforeFirst(body, '}', rest);
  }

  lemma WordBodyParses(c: CrateCounts, kvs: seq<Kv>, indent: string, ws: string)
    requires kvs == Kvs(c) && Spaces(indent) && Spaces(ws) && Lacks(ws, ',')
    ensures ParseBody(CountsThen(kvs, 0, indent, ws), NO_COUNTS) == Some(c)
  {
    var state: nat -> CrateCounts := (i: nat) => Partial(c, i);
    KeysAreWords(c);
    WordsArePlain(kvs, indent);
    forall i | 0 <= i < |kvs|
      ensures ParseToken(Line(indent, kvs[i]) + LastWs(kvs, i, ws), state(i)) == Some(state(i + 1))
    {
      LineParses(indent, kvs[i], LastWs(kvs, i, ws), state(i));
      AssignStep(c, i);
    }
    BodyParses(kvs, 0, indent, ws, ParseToken, state);
    LineThen("", indent, kvs[0], CountsThen(kvs, 1, indent, ws));
    assert "" + Line(indent, kvs[0]) == Line(indent, kvs[0]);
  }

  // Counts printed between braces are read back as they were.
  lemma RowParses(c: CrateCounts, indent: string, ws: string, rest: string)
    requires Spaces(indent) && Spaces(ws) && Lacks(ws, ',') && Lacks(ws, '}')
    ensures ParseAfterKey(" {" + CountsThen(Kvs(c), 0, indent, ws + ("}" + rest))) == Some(c)
  {
    KeysAreWords(c);
    WordsArePlain(Kvs(c), indent);
    BodyBetweenBraces(Kvs(c), indent, ws, rest);
    WordBodyParses(c, Kvs(c), indent, ws);
  }

  // ---- Bodies that cannot be read ------------------------------------------

  lemma {:induction false} StripStartBefore(a: string, rest: string, p: char -> bool)
    requires rest != "" && !p(rest[0])
    ensures StripStart(a + rest, p) == StripStart(a, p) + rest
  {
    if a == "" {
      assert a + rest == rest;
    } else if p(a[0]) {
      assert (a + rest)[1..] == a[1..] + rest;
      StripStartBefore(a[1..], rest, p);
    }
  }

  lemma {:induction false} StripEndAfter(front: string, b: string, p: char -> bool)
    requires front != "" && !p(front[|front| - 1])
    ensures StripEnd(front + b, p) == front + StripEnd(b, p)
    decreases |b|
  {
    if b == "" {
      assert front + b == front;
    } else if p(b[|b| - 1]) {
      assert (front + b)[..|front + b| - 1] == front + b[..|b| - 1];
      StripEndAfter(front, b[..|b| - 1], p);
    }
  }

  lemma NoNumber(v: string)
    requires '{' in v
    ensures ParseUsize(Strip(v, IsSpace)) == None
  {
    StripKeeps(v, IsSpace, '{');
    var s := Strip(v, IsSpace);
    var i :| 0 <= i < |s| && s[i] == '{';
    if s[0] == '+' {
      assert s[1..][i - 1] == '{';
    }
  }

  lemma TrimAround(a: string, core: string, b: string, p: char -> bool)
    requires core != "" && !p(core[0]) && !p(core[|core| - 1])
    ensures Strip(a + (core + b), p) == StripStart(a, p) + (core + StripEnd(b, p))
  {
    var a' := StripStart(a, p);
    StripStartBefore(a, core + b, p);
    Regroup(a', core, b);
    StripEndAfter(a' + core, b, p);
    Regroup(a', core, StripEnd(b, p));
  }

  lemma BraceAfterColon(a: string, b: string)
    ensures var pair := SplitOnce(a + (": {" + b), ':');
            pair.Some? && '{' in pair.value.1
  {
    var t := a + (": {" + b);
    assert t[|a|..|a| + 1] == ":" && MatchesAt(t, ":", |a|);
    FoundFirst(t, ":", 0);
    var p := FindFrom(t, ":", 0).value;
    assert p <= |a|;
    assert t[p + 1..][|a| + 2 - (p + 1)] == '{';
  }

  // A token in which a brace follows a colon is fatal to the parser.
  lemma BadToken(a: string, b: string, c: CrateCounts)
    ensures ParseToken(a + (": {" + b), c) == None
  {
    var a', b' := StripStart(a, IsSpace), StripEnd(b, IsSpace);
    TrimAround(a, ": {", b, IsSpace);
    BraceAfterColon(a', b');
    NoNumber(SplitOnce(a' + (": {" + b'), ':').value.1);
  }

  lemma SplitBody(first: string, rest: string, c: CrateCounts)
    requires Lacks(first, ',')
    ensures ParseBody(first + ("," + rest), c)
         == match ParseToken(first, c) case None => None case Some(c') => ParseBody(rest, c')
  {
    SplitFirst(first, ',', rest);
    assert ([first] + Split(rest, ','))[1..] == Split(rest, ',');
  }

  lemma BadFirstToken(a: string, b: string, c: CrateCounts)
    requires Lacks(a, ',')
    ensures ParseBody(a + (": {" + b), c) == None
  {
    var open := ": {";
    match FindFrom(b, ",", 0)
    case Some(i) =>
      CommaIn(b, i, "");
      assert b[i + 1..] + "" == b[i + 1..] && b + "" == b;
      assert a + (open + b) == (a + (open + b[..i])) + ("," + b[i + 1..]);
      SplitBody(a + (open + b[..i]), b[i + 1..], c);
      BadToken(a, b[..i], c);
    case None =>
      LacksComma(b);
      SplitWhole(a + (open + b), ',');
      BadToken(a, b, c);
  }

  lemma {:induction false} BadBody(a: string, b: string, c: CrateCounts)
    ensures ParseBody(a + (": {" + b), c) == None
    decreases |a|
  {
    match FindFrom(a, ",", 0)
    case Some(i) =>
      CommaIn(a, i, ": {" + b);
      SplitBody(a[..i], a[i + 1..] + (": {" + b), c);
      match ParseToken(a[..i], c) {
        case Some(c') => BadBody(a[i + 1..], b, c');
        case None =>
      }
    case None =>
      LacksComma(a);
      BadFirstToken(a, b, c);
  }

  lemma CommaIn(a: string, i: nat, rest: string)
    requires FindFrom(a, ",", 0) == Some(i)
    ensures i < |a| && Lacks(a[..i], ',') && a + rest == a[..i] + ("," + (a[i + 1..] + rest))
  {
    FoundFirst(a, ",", 0);
    CommaAt(a, i);
    Regroup(a[..i], "," + a[i + 1..], rest);
    Regroup(",", a[i + 1..], rest);
  }

  lemma CommaAt(a: string, i: nat)
    requires MatchesAt(a, ",", i) && forall j :: 0 <= j < i ==> !MatchesAt(a, ",", j)
    ensures i < |a| && Lacks(a[..i], ',') && a == a[..i] + ("," + a[i + 1..])
  {
    NoCommaBefore(a, i);
    assert a[i..i + 1][0] == a[i];
    Around(a, i);
  }

  lemma Around<T>(a: seq<T>, i: nat)
    requires i < |a|
    ensures a == a[..i] + ([a[i]] + a[i + 1..])
  {
  }

  lemma NoCommaBefore(a: string, i: nat)
    requires i <= |a| && forall j :: 0 <= j < i ==> !MatchesAt(a, ",", j)
    ensures Lacks(a[..i], ',')
  {
    forall j | 0 <= j < i ensures a[j] != ',' {
      assert a[j..j + 1] == [a[j]];
      assert !MatchesAt(a, ",", j);
    }
  }

  lemma LacksComma(a: string)
    requires FindFrom(a, ",", 0) == None
    ensures Lacks(a, ',')
  {
    FoundFirst(a, ",", 0);
    NoCommaBefore(a, |a|);
    assert a[..|a|] == a;
  }

  // ---- From a crate's name to its counts -----------------------------------

  predicate IsMetricKey(name: string) {
    !NoKey(Kvs(NO_COUNTS), name)
  }

  // The printer's map: no name twice, and no quote in a name.
  predicate WellNamed(m: seq<Entry>) {
    && (forall i :: 0 <= i < |m| ==> Lacks(m[i].name, '"'))
    && forall i, j :: 0 <= i < j < |m| ==> m[i].name != m[j].name
  }

  lemma SameKeys(c: CrateCounts, d: CrateCounts)
    ensures |Kvs(c)| == |Kvs(d)| && forall i :: 0 <= i < |Kvs(c)| ==> Kvs(c)[i].key == Kvs(d)[i].key
  {
  }

  lemma RowsArePlain(m: seq<Entry>)
    requires WellNamed(m)
    ensures PlainRows(Kvs, m)
  {
    forall i | 0 <= i < |m| ensures PlainRow(Kvs(m[i].counts)) {
      KeysAreWords(m[i].counts);
      WordsArePlain(Kvs(m[i].counts), "");
    }
  }

  lemma NoRowHas(m: seq<Entry>, name: string)
    requires !IsMetricKey(name)
    ensures forall x :: 0 <= x < |m| ==> NoKey(Kvs(m[x].counts), name)
  {
    forall x | 0 <= x < |m| ensures NoKey(Kvs(m[x].counts), name) {
      SameKeys(NO_COUNTS, m[x].counts);
    }
  }

  lemma CrateParses(m: seq<Entry>, i: nat, tail: string)
    requires i < |m|
    ensures ParseAfterKey(" {" + CrateRest(Kvs, m, i, tail)) == Some(m[i].counts)
  {
    var rest := CratesThen(Kvs, m, i + 1, tail);
    assert "\n    }" + rest == "\n    " + ("}" + rest);
    RowParses(m[i].counts, "      ", "\n    ", rest);
  }

  // Only what stands between the next braces matters.
  lemma SameInside(x: string, y: string)
    requires After(x, "{") == After(y, "{")
    ensures ParseAfterKey(x) == ParseAfterKey(y)
  {
  }

  lemma PassBraceless(pre: string, rest: string)
    requires Lacks(pre, '{')
    ensures After(pre + rest, "{") == After(rest, "{")
  {
    AfterSkipsPlain(pre, rest, "{");
  }

  lemma {:induction false} FirstIndex(s: string, c: char) returns (k: nat)
    requires c in s
    ensures k < |s| && s[k] == c && Lacks(s[..k], c)
    decreases |s|
  {
    if s[0] == c {
      k := 0;
    } else {
      var j := FirstIndex(s[1..], c);
      k := j + 1;
      forall i | 0 <= i < k ensures s[i] != c {
        if i > 0 {
          assert s[1..][..j][i - 1] == s[i];
        }
      }
    }
  }

  lemma AfterFirst(pre: string, c: char, post: string)
    requires Lacks(pre, c)
    ensures After(pre + ([c] + post), [c]) == Some(post)
  {
    AfterSkipsPlain(pre, [c] + post, [c]);
    AfterHere([c], post);
  }

  lemma AroundFirst(s: string, c: char) returns (pre: string, post: string)
    requires c in s
    ensures s == pre + ([c] + post) && Lacks(pre, c)
    ensures Before(s, [c]) == Some(pre) && After(s, [c]) == Some(post)
  {
    var k := FirstIndex(s, c);
    pre, post := s[..k], s[k + 1..];
    Around(s, k);
    BeforeFirst(pre, c, post);
    AfterFirst(pre, c, post);
  }

  // What is read when reading starts inside a name, behind an opening brace:
  // the text up to a closing brace of the same name, or nothing.
  function InsideName(s: string): Option<CrateCounts> {
    match Before(s, "}")
    case None => None
    case Some(body) => ParseBody(body, NO_COUNTS)
  }

  // What is read when reading starts in a crate's name: its counts, unless the
  // rest of the name holds an opening brace.
  function ReadFrom(rest: string, own: CrateCounts): Option<CrateCounts> {
    match After(rest, "{")
    case None => Some(own)
    case Some(s) => InsideName(s)
  }

  // The header of crate i from inside its name on.
  function HeaderFrom(s: string, m: seq<Entry>, i: nat, tail: string): string
    requires i < |m|
  {
    s + ("\"" + (": {" + CrateRest(Kvs, m, i, tail)))
  }

  function ParseInside(inside: string): Option<CrateCounts> {
    match Before(inside, "}")
    case None => None
    case Some(body) => ParseBody(body, NO_COUNTS)
  }

  lemma ClosedInName(s: string, rest: string)
    requires '}' in s
    ensures ParseInside(s + rest) == InsideName(s)
  {
    var pre, post := AroundFirst(s, '}');
    assert s + rest == pre + ("}" + (post + rest));
    BeforeFirst(pre, '}', post + rest);
  }

  lemma RestSplits(kvs: seq<Kv>, rest: string)
    ensures CountsThen(kvs, 0, "      ", "\n    }" + rest) == CountsThen(kvs, 0, "      ", "\n    ") + ("}" + rest)
  {
    assert "\n    }" + rest == "\n    " + ("}" + rest);
    CountsAppend(kvs, 0, "      ", "\n    ");
    CountsAppend(kvs, 0, "      ", "\n    " + ("}" + rest));
    Regroup(CountsThen(kvs, 0, "      ", ""), "\n    ", "}" + rest);
  }

  lemma RegroupHeader(s: string, quote: string, open: string, inner: string, rest: string)
    ensures s + (quote + (open + (inner + rest))) == ((s + quote) + (open + inner)) + rest
  {
  }

  // A body that runs from a name into the counts has a brace after a colon.
  lemma ClosedInCounts(s: string, kvs: seq<Kv>, rest: string)
    requires Lacks(s, '}') && PlainLines(kvs, "      ")
    ensures ParseInside(s + ("\"" + (": {" + CountsThen(kvs, 0, "      ", "\n    }" + rest)))) == None
  {
    var inner := CountsThen(kvs, 0, "      ", "\n    ");
    RestSplits(kvs, rest);
    RegroupHeader(s, "\"", ": {", inner, "}" + rest);
    CountsLack(kvs, 0, "      ", "\n    ", '}');
    BeforeFirst((s + "\"") + (": {" + inner), '}', rest);
    BadBody(s + "\"", inner, NO_COUNTS);
  }

  lemma PlainIndent(c: CrateCounts)
    ensures PlainLines(Kvs(c), "      ")
  {
    KeysAreWords(c);
    WordsArePlain(Kvs(c), "      ");
  }

  lemma InsideHeader(s: string, m: seq<Entry>, i: nat, tail: string)
    requires i < |m|
    ensures ParseInside(HeaderFrom(s, m, i, tail)) == InsideName(s)
  {
    if '}' in s {
      ClosedInName(s, "\"" + (": {" + CrateRest(Kvs, m, i, tail)));
    } else {
      NoneWithout(s, '}');
      PlainIndent(m[i].counts);
      ClosedInCounts(s, Kvs(m[i].counts), CratesThen(Kvs, m, i + 1, tail));
    }
  }

  lemma OpenBrace(pre: string, inside: string)
    requires Lacks(pre, '{')
    ensures ParseAfterKey(pre + ("{" + inside)) == ParseInside(inside)
  {
    PassBraceless(pre, "{" + inside);
    AfterHere("{", inside);
  }

  lemma RegroupName(pre: string, s: string, rest: string)
    ensures (pre + ("{" + s)) + rest == pre + ("{" + (s + rest))
  {
  }

  lemma ReadInName(pre: string, s: string, m: seq<Entry>, i: nat, tail: string)
    requires i < |m| && Lacks(pre, '{')
    ensures ParseAfterKey(HeaderFrom(pre + ("{" + s), m, i, tail)) == InsideName(s)
  {
    RegroupName(pre, s, "\"" + (": {" + CrateRest(Kvs, m, i, tail)));
    OpenBrace(pre, HeaderFrom(s, m, i, tail));
    InsideHeader(s, m, i, tail);
  }

  lemma ReadToCounts(r: string, m: seq<Entry>, i: nat, tail: string)
    requires i < |m| && Lacks(r, '{')
    ensures ParseAfterKey(HeaderFrom(r, m, i, tail)) == Some(m[i].counts)
  {
    BraceAhead(r, CrateRest(Kvs, m, i, tail));
    SameInside(HeaderFrom(r, m, i, tail), " {" + CrateRest(Kvs, m, i, tail));
    CrateParses(m, i, tail);
  }

  lemma BraceAhead(r: string, rest: string)
    requires Lacks(r, '{')
    ensures After(r + ("\"" + (": {" + rest)), "{") == After(" {" + rest, "{")
  {
    PassBraceless(r, "\"" + (": {" + rest));
    PassBraceless("\"", ": {" + rest);
    assert ": {" + rest == ":" + (" {" + rest);
    PassBraceless(":", " {" + rest);
  }

  lemma ReadHeader(r: string, m: seq<Entry>, i: nat, tail: string)
    requires i < |m|
    ensures ParseAfterKey(HeaderFrom(r, m, i, tail)) == ReadFrom(r, m[i].counts)
  {
    if '{' in r {
      var pre, s := AroundFirst(r, '{');
      ReadInName(pre, s, m, i, tail);
    } else {
      NoneWithout(r, '{');
      ReadToCounts(r, m, i, tail);
    }
  }

  // ---- What the parser returns for each name -------------------------------

  // The round trip: a crate whose name is none of the report's own keys, nor the
  // text before a crate that begins with a colon, is read back with its counts.
  lemma RoundTrip(m: seq<Entry>, total: CrateCounts, i: nat)
    requires WellNamed(m) && i < |m|
    requires m[i].name != "crates" && !IsMetricKey(m[i].name) && Undisturbed(Kvs, m, i + 1, m[i].name)
    ensures Parsed(Json(m, total), m[i].name) == Some(m[i].counts)
  {
    RowsArePlain(m);
    NoRowHas(m, m[i].name);
    ReachEntry(Kvs, m, total, i, m[i].name);
    HitCrate(Kvs, m, i, Tail(Kvs, total));
    CrateParses(m, i, Tail(Kvs, total));
  }

  // Asking for a crate that is not there finds nothing ...
  lemma AbsentName(m: seq<Entry>, total: CrateCounts, name: string)
    requires WellNamed(m) && Lacks(name, '"') && name != "crates" && !IsMetricKey(name) && name != "total"
    requires Undisturbed(Kvs, m, |m|, name) && forall i :: 0 <= i < |m| ==> m[i].name != name
    ensures Parsed(Json(m, total), name) == None
  {
    RowsArePlain(m);
    NoRowHas(m, name);
    ReachEntry(Kvs, m, total, |m|, name);
    TotalsArePlain(total, name);
    NotInTotals(Kvs(total), CLOSE, name);
  }

  // ... except under the name "total".
  lemma TotalName(m: seq<Entry>, total: CrateCounts)
    requires WellNamed(m)
    requires forall i :: 0 <= i < |m| ==> m[i].name != "total"
    ensures Parsed(Json(m, total), "total") == Some(total)
  {
    ReachTotals(m, total);
    TotalsFound(Kvs(total), CLOSE);
    TotalsParse(total);
  }

  lemma TotalsParse(total: CrateCounts)
    ensures ParseAfterKey(" {" + CountsThen(Kvs(total), 0, "    ", CLOSE)) == Some(total)
  {
    CloseSplits();
    RowParses(total, "    ", "\n  ", "\n}\n");
  }

  lemma ReachTotals(m: seq<Entry>, total: CrateCounts)
    requires WellNamed(m)
    requires forall i :: 0 <= i < |m| ==> m[i].name != "total"
    ensures After(Json(m, total), KeyPattern("total")) == After(Tail(Kvs, total), KeyPattern("total"))
  {
    TotalIsNoMetric();
    RowsArePlain(m);
    NoRowHas(m, "total");
    WordsAreUndisturbed(m, "total");
    ReachEntry(Kvs, m, total, |m|, "total");
  }

  lemma WordsAreUndisturbed(m: seq<Entry>, name: string)
    requires !StartsWithColon(name)
    ensures Undisturbed(Kvs, m, |m|, name)
  {
    forall x | 0 <= x < |m| ensures !CollidesAt(Kvs, m, x, name) {
      BetweenShape(Kvs, m, x);
    }
  }

  lemma TotalIsNoMetric()
    ensures !IsMetricKey("total")
  {
    assert "total"[0] == 't' && "files"[0] == 'f';
  }

  lemma CloseSplits()
    ensures CLOSE == "\n  " + ("}" + "\n}\n")
  {
  }

  lemma TotalsFound(kvs: seq<Kv>, close: string)
    ensures After(TotalsThen(kvs, close), KeyPattern("total")) == Some(" {" + CountsThen(kvs, 0, "    ", close))
  {
    var here := CountsThen(kvs, 0, "    ", close);
    PassPlain("\n  },\n  ", Quoted("total", ": {" + here), "total");
    assert ": {" + here == ":" + (" {" + here);
    HitKey("total", " {" + here);
  }

  lemma NotInPlain(close: string, name: string)
    requires Lacks(close, '"')
    ensures After(close, KeyPattern(name)) == None
  {
    PassPlain(close, "", name);
    assert close + "" == close;
    FoundFirst("", KeyPattern(name), 0);
  }

  lemma NotInTotals(kvs: seq<Kv>, close: string, name: string)
    requires PlainRow(kvs) && NoKey(kvs, name) && Lacks(name, '"') && name != "total" && Lacks(close, '"')
    ensures After(TotalsThen(kvs, close), KeyPattern(name)) == None
  {
    var here := CountsThen(kvs, 0, "    ", close);
    NoCollisionBefore(kvs, ": {", "    ", close, name);
    EnterTotals(here, name);
    DecimalLacks(LastValue(kvs), '"');
    NoQuoteNoCollision(LastValued(kvs, close), name);
    PassCounts(kvs, 0, |kvs|, "    ", close, name);
    NotInPlain(close, name);
  }

  lemma EnterTotals(here: string, name: string)
    requires Lacks(name, '"') && name != "total" && !Collides(": {" + here, name)
    ensures After("\n  },\n  " + Quoted("total", ": {" + here), KeyPattern(name)) == After(here, KeyPattern(name))
  {
    PassPlain("\n  },\n  ", Quoted("total", ": {" + here), name);
    PassKey("total", ": {" + here, name);
    PassPlain(": {", here, name);
  }

  lemma TotalsArePlain(total: CrateCounts, name: string)
    requires !IsMetricKey(name)
    ensures PlainRow(Kvs(total)) && NoKey(Kvs(total), name)
  {
    KeysAreWords(total);
    WordsArePlain(Kvs(total), "");
    SameKeys(NO_COUNTS, total);
  }

  // ---- Names that collide with the report's own keys -----------------------

  lemma CountsHaveNoBrace(kvs: seq<Kv>, j: nat, indent: string, tail: string)
    requires j <= |kvs| && PlainLines(kvs, indent)
    ensures After(CountsThen(kvs, j, indent, tail), "{") == After(tail, "{")
  {
    CountsAppend(kvs, j, indent, tail);
    CountsLack(kvs, j, indent, "", '{');
    PassBraceless(CountsThen(kvs, j, indent, ""), tail);
  }

  // Up to the name of entry i, the list of crates from there on has no brace.
  lemma BraceInHeader(row: CrateCounts -> seq<Kv>, m: seq<Entry>, i: nat, tail: string)
    requires i < |m|
    ensures After(CratesThen(row, m, i, tail), "{") == After(NameOn(row, m, i, tail), "{")
  {
    var sep, quote, here := if i > 0 then "," else "", "\"", NameOn(row, m, i, tail);
    PassBraceless(sep, "\n    " + (quote + here));
    PassBraceless("\n    ", quote + here);
    PassBraceless(quote, here);
  }

  lemma ColonSpace(rest: string)
    ensures ": " + rest == ":" + (" " + rest)
  {
  }

  lemma HitCount(kvs: seq<Kv>, k: nat, indent: string, tail: string)
    requires k < |kvs| && PlainKeys(kvs) && Lacks(indent, '"')
    requires forall i :: 0 <= i < k ==> kvs[i].key != kvs[k].key
    ensures After(CountsThen(kvs, 0, indent, tail), KeyPattern(kvs[k].key))
         == Some(" " + (Decimal(kvs[k].value) + CountsThen(kvs, k + 1, indent, tail)))
  {
    var key, digits, rest := kvs[k].key, Decimal(kvs[k].value), CountsThen(kvs, k + 1, indent, tail);
    PassCounts(kvs, 0, k, indent, tail, key);
    ReachKey(kvs, k, indent, tail, key);
    ColonSpace(digits + rest);
    HitKey(key, " " + (digits + rest));
  }

  lemma ValueHasNoBrace(kvs: seq<Kv>, k: nat, indent: string, tail: string)
    requires k < |kvs| && PlainLines(kvs, indent)
    ensures After(" " + (Decimal(kvs[k].value) + CountsThen(kvs, k + 1, indent, tail)), "{") == After(tail, "{")
  {
    var digits, rest := Decimal(kvs[k].value), CountsThen(kvs, k + 1, indent, tail);
    PassBraceless(" ", digits + rest);
    DecimalLacks(kvs[k].value, '{');
    PassBraceless(digits, rest);
    CountsHaveNoBrace(kvs, k + 1, indent, tail);
  }

  predicate MetricRow(kvs: seq<Kv>, k: nat)
    requires k < |kvs|
  {
    && PlainRow(kvs) && PlainLines(kvs, "      ")
    && forall i :: 0 <= i < k ==> kvs[i].key != kvs[k].key
  }

  // The text that follows the pattern of metric k of a crate.
  function ValueText(kvs: seq<Kv>, k: nat, tail: string): string
    requires k < |kvs|
  {
    " " + (Decimal(kvs[k].value) + CountsThen(kvs, k + 1, "      ", tail))
  }

  lemma ValueToNext(row: CrateCounts -> seq<Kv>, m: seq<Entry>, kvs: seq<Kv>, k: nat, tail: string)
    requires |m| >= 2 && k < |kvs| && PlainLines(kvs, "      ")
    ensures ParseAfterKey(ValueText(kvs, k, "\n    }" + CratesThen(row, m, 1, tail))) == ParseAfterKey(NameOn(row, m, 1, tail))
  {
    var close := "\n    }" + CratesThen(row, m, 1, tail);
    ValueHasNoBrace(kvs, k, "      ", close);
    PassBraceless("\n    }", CratesThen(row, m, 1, tail));
    BraceInHeader(row, m, 1, tail);
    SameInside(ValueText(kvs, k, close), NameOn(row, m, 1, tail));
  }

  // Searching for a metric's name runs into the first crate's own metrics, and
  // what is read is whatever follows in the header of the crate after it.
  lemma MetricInFirstCrate(row: CrateCounts -> seq<Kv>, m: seq<Entry>, kvs: seq<Kv>, k: nat, tail: string)
    requires m != [] && kvs == row(m[0].counts) && k < |kvs| && MetricRow(kvs, k)
    requires m[0].name != kvs[k].key && Lacks(m[0].name, '"')
    ensures After(CratesThen(row, m, 0, tail), KeyPattern(kvs[k].key))
         == Some(ValueText(kvs, k, "\n    }" + CratesThen(row, m, 1, tail)))
  {
    EnterCrate(row, m, 0, tail, kvs[k].key);
    HitCount(kvs, k, "      ", "\n    }" + CratesThen(row, m, 1, tail));
  }

  lemma KeysAreDistinct(kvs: seq<Kv>, c: CrateCounts, i: nat, j: nat)
    requires kvs == Kvs(c) && i < j < |kvs|
    ensures kvs[i].key != kvs[j].key
  {
    assert "unwrap_used"[0] == 'u' && "expect_used"[0] == 'e' && "panic_macro"[0] == 'p' && "box_dyn_any"[0] == 'b';
    assert "unimplemented_macro"[0] == 'u' && "placeholder_comment"[0] == 'p';
  }

  lemma RowFacts(kvs: seq<Kv>, c: CrateCounts, k: nat)
    requires kvs == Kvs(c) && k < |kvs|
    ensures MetricRow(kvs, k) && Wordlike(kvs[k].key)
  {
    KeysAreWords(c);
    WordsArePlain(kvs, "      ");
    forall i | 0 <= i < k ensures kvs[i].key != kvs[k].key {
      KeysAreDistinct(kvs, c, i, k);
    }
  }

  lemma RowKey(c: CrateCounts, name: string) returns (k: nat)
    requires IsMetricKey(name)
    ensures k < |Kvs(c)| && Kvs(c)[k].key == name
  {
    k :| 0 <= k < |Kvs(NO_COUNTS)| && Kvs(NO_COUNTS)[k].key == name;
    SameKeys(NO_COUNTS, c);
  }

  lemma MetricKeyIsNotCrates(name: string)
    requires IsMetricKey(name)
    ensures name != "crates"
  {
    assert "crates"[0] == 'c';
  }

  // A crate named like a metric is read back as itself when it is the first, and
  // from the header of the second crate otherwise.
  lemma MetricName(m: seq<Entry>, total: CrateCounts, i: nat)
    requires WellNamed(m) && i < |m| && IsMetricKey(m[i].name)
    ensures Parsed(Json(m, total), m[i].name)
         == if i == 0 then Some(m[0].counts) else ReadFrom(m[1].name, m[1].counts)
  {
    var name, tail := m[i].name, Tail(Kvs, total);
    var k := RowKey(m[0].counts, name);
    RowFacts(Kvs(m[0].counts), m[0].counts, k);
    MetricKeyIsNotCrates(name);
    CollisionAtCrate(Kvs, m, 0, tail, name);
    BetweenShape(Kvs, m, 0);
    ReachCrates(Kvs, m, total, name);
    if i == 0 {
      HitCrate(Kvs, m, 0, tail);
      CrateParses(m, 0, tail);
    } else {
      MetricInFirstCrate(Kvs, m, Kvs(m[0].counts), k, tail);
      ValueToNext(Kvs, m, Kvs(m[0].counts), k, tail);
      ReadHeader(m[1].name, m, 1, tail);
    }
  }

  // The search for "crates" always ends at the key that opens the whole list, and
  // what is read is the first crate's name, as far as a closing brace in it.
  lemma CratesName(m: seq<Entry>, total: CrateCounts)
    requires m != []
    ensures Parsed(Json(m, total), "crates") == InsideName("\n    \"" + m[0].name)
  {
    var tail := Tail(Kvs, total);
    CratesFound(Kvs, m, total);
    ListIsHeader(m, tail);
    SpaceOpen(HeaderFrom("\n    \"" + m[0].name, m, 0, tail));
    InsideHeader("\n    \"" + m[0].name, m, 0, tail);
  }

  lemma SpaceOpen(inside: string)
    ensures ParseAfterKey(" {" + inside) == ParseInside(inside)
  {
    assert " {" + inside == " " + ("{" + inside);
    OpenBrace(" ", inside);
  }

  lemma ListIsHeader(m: seq<Entry>, tail: string)
    requires m != []
    ensures CratesThen(Kvs, m, 0, tail) == HeaderFrom("\n    \"" + m[0].name, m, 0, tail)
  {
    assert "\n    \"" == "\n    " + "\"";
  }

  // ---- Names that are the text before a crate ------------------------------

  lemma ColonSplits(s: string, rest: string)
    requires StartsWithColon(s)
    ensures s + rest == ":" + (s[1..] + rest)
  {
  }

  lemma CollisionAtFirst(m: seq<Entry>, total: CrateCounts, name: string, next: string)
    requires Lacks(name, '"') && name != "crates"
    requires BeforeCrate(Kvs, m, 0, Tail(Kvs, total)) == name + ("\"" + (":" + next))
    ensures After(Json(m, total), KeyPattern(name)) == Some(next)
  {
    PassPlain("{\n  ", Quoted("crates", BeforeCrate(Kvs, m, 0, Tail(Kvs, total))), name);
    HitBetween("crates", name, next);
  }

  lemma CollisionLater(m: seq<Entry>, total: CrateCounts, x: nat, name: string, next: string)
    requires WellNamed(m) && 0 < x < |m| && Lacks(name, '"') && name != "crates" && !IsMetricKey(name)
    requires forall y :: 0 <= y < x ==> m[y].name != name
    requires Undisturbed(Kvs, m, x, name) && BeforeCrate(Kvs, m, x, Tail(Kvs, total)) == name + ("\"" + (":" + next))
    ensures After(Json(m, total), KeyPattern(name)) == Some(next)
  {
    var tail := Tail(Kvs, total);
    RowsArePlain(m);
    NoRowHas(m, name);
    ReachEntry(Kvs, m, total, x - 1, name);
    EnterCrate(Kvs, m, x - 1, tail, name);
    LastKey(Kvs(m[x - 1].counts), "\n    }" + CratesThen(Kvs, m, x, tail), name, next);
  }

  // The first crate before which the name stands is read in its place.
  lemma CollidingName(m: seq<Entry>, total: CrateCounts, x: nat, name: string)
    requires WellNamed(m) && x < |m| && Lacks(name, '"') && name != "crates" && !IsMetricKey(name)
    requires forall y :: 0 <= y < x ==> m[y].name != name
    requires Undisturbed(Kvs, m, x, name) && CollidesAt(Kvs, m, x, name)
    ensures Parsed(Json(m, total), name) == ReadFrom(m[x].name[1..], m[x].counts)
  {
    var tail := Tail(Kvs, total);
    var rest := "\"" + (": {" + CrateRest(Kvs, m, x, tail));
    BeforeIsBetween(Kvs, m, x, tail);
    ColonSplits(m[x].name, rest);
    if x == 0 {
      CollisionAtFirst(m, total, name, m[x].name[1..] + rest);
    } else {
      CollisionLater(m, total, x, name, m[x].name[1..] + rest);
    }
    ReadHeader(m[x].name[1..], m, x, tail);
  }

  lemma LastKey(kvs: seq<Kv>, tail: string, name: string, next: string)
    requires PlainRow(kvs) && NoKey(kvs, name) && Lacks(name, '"')
    requires LastValued(kvs, tail) == name + ("\"" + (":" + next))
    ensures After(CountsThen(kvs, 0, "      ", tail), KeyPattern(name)) == Some(next)
  {
    var n := |kvs| - 1;
    PassCounts(kvs, 0, n, "      ", tail, name);
    ReachKey(kvs, n, "      ", tail, name);
    HitBetween(kvs[n].key, name, next);
  }

  // ---- When the round trip holds -------------------------------------------

  // The first of these positions from x to k that is taken.
  function FirstTrue(taken: nat -> bool, x: nat, k: nat): (r: Option<nat>)
    requires x <= k
    ensures r.None? ==> forall y :: x <= y < k ==> !taken(y)
    ensures r.Some? ==> x <= r.value < k && taken(r.value) && forall y :: x <= y < r.value ==> !taken(y)
    decreases k - x
  {
    if x == k then None else if taken(x) then Some(x) else FirstTrue(taken, x + 1, k)
  }

  // The first of the crates up to number k before which the name stands.
  function FirstCollision(m: seq<Entry>, k: nat, name: string): Option<nat> {
    FirstTrue((x: nat) => x < |m| && CollidesAt(Kvs, m, x, name), 0, k)
  }

  lemma FirstCollisionIs(m: seq<Entry>, k: nat, name: string)
    requires k <= |m|
    ensures match FirstCollision(m, k, name)
            case None => Undisturbed(Kvs, m, k, name)
            case Some(x) => x < k && CollidesAt(Kvs, m, x, name) && Undisturbed(Kvs, m, x, name)
  {
    var taken := (x: nat) => x < |m| && CollidesAt(Kvs, m, x, name);
    var r := FirstTrue(taken, 0, k);
    var last := if r.None? then k else r.value;
    forall x | 0 <= x < last ensures !CollidesAt(Kvs, m, x, name) {
      assert !taken(x);
    }
  }

  // What is read back for crate i, for every map of quote-free names.
  function Found(m: seq<Entry>, i: nat): Option<CrateCounts>
    requires i < |m|
  {
    var name := m[i].name;
    if name == "crates" then InsideName("\n    \"" + m[0].name)
    else if IsMetricKey(name) then if i == 0 then Some(m[0].counts) else ReadFrom(m[1].name, m[1].counts)
    else
      match FirstCollision(m, i + 1, name)
      case Some(x) => ReadFrom(m[x].name[1..], m[x].counts)
      case None => Some(m[i].counts)
  }

  lemma ParsedExactly(m: seq<Entry>, total: CrateCounts, i: nat)
    requires WellNamed(m) && i < |m|
    ensures Parsed(Json(m, total), m[i].name) == Found(m, i)
  {
    if m[i].name == "crates" {
      CratesName(m, total);
    } else if IsMetricKey(m[i].name) {
      MetricName(m, total, i);
    } else {
      FirstCollisionIs(m, i + 1, m[i].name);
      match FirstCollision(m, i + 1, m[i].name)
      case Some(x) => CollidingName(m, total, x, m[i].name);
      case None => RoundTrip(m, total, i);
    }
  }

  predicate Braceless(m: seq<Entry>) {
    forall i :: 0 <= i < |m| ==> Lacks(m[i].name, '{') && Lacks(m[i].name, '}')
  }

  lemma BracelessIsUndisturbed(m: seq<Entry>, name: string)
    requires Lacks(name, '{') && Lacks(name, '}')
    ensures Undisturbed(Kvs, m, |m|, name)
  {
    forall x | 0 <= x < |m| ensures !CollidesAt(Kvs, m, x, name) {
      BetweenShape(Kvs, m, x);
    }
  }

  lemma FoundBraceless(m: seq<Entry>, i: nat)
    requires Braceless(m) && i < |m|
    ensures Found(m, i)
         == if m[i].name == "crates" then None
            else if IsMetricKey(m[i].name) && i > 0 then Some(m[1].counts)
            else Some(m[i].counts)
  {
    BracelessIsUndisturbed(m, m[i].name);
    if m[i].name == "crates" {
      NoneWithout("\n    \"" + m[0].name, '}');
    } else if IsMetricKey(m[i].name) && i > 0 {
      NoneWithout(m[1].name, '{');
    }
  }

  // A crate is read back with its own counts exactly when it is not called
  // "crates", and, if it has a metric's name, when it is one of the first two
  // or has the second one's counts.
  lemma RoundTripExactly(m: seq<Entry>, total: CrateCounts, i: nat)
    requires WellNamed(m) && Braceless(m) && i < |m|
    ensures Parsed(Json(m, total), m[i].name) == Some(m[i].counts)
       <==> m[i].name != "crates" && (IsMetricKey(m[i].name) ==> i <= 1 || m[i].counts == m[1].counts)
  {
    ParsedExactly(m, total, i);
    FoundBraceless(m, i);
  }

  // Braces in names are another matter: of these two crates the second is the
  // text before the first, and is read back with the first one's counts.
  lemma BracesCanCollide(a: CrateCounts, b: CrateCounts, total: CrateCounts)
    ensures var m := [Entry(":", a), Entry(": {\n    ", b)];
            WellNamed(m) && Parsed(Json(m, total), m[1].name) == Some(a)
  {
    var m := [Entry(":", a), Entry(": {\n    ", b)];
    assert |m[0].name| != |m[1].name|;
    ColonIsNoKey();
    NoneWithout("", '{');
    assert CollidesAt(Kvs, m, 0, m[1].name);
    CollidingName(m, total, 0, m[1].name);
    assert ":"[1..] == "";
  }

  lemma ColonIsNoKey()
    ensures !IsMetricKey(": {\n    ") && ": {\n    " != "crates"
  {
    assert ": {\n    "[0] == ':';
    KeysAreWords(NO_COUNTS);
  }
}
