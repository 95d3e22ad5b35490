// The audit report of xtask (xtask/src/main.rs): a hand-written JSON printer, a
// substring-search parser, and the regression check between them.
module Audit {
  import opened Wrappers
  import opened Text

  datatype CrateCounts = CrateCounts(
    files: u64, loc: u64, unwrapUsed: u64, expectUsed: u64, panicMacro: u64, todoMacro: u64,
    unimplementedMacro: u64, boxDynAny: u64, placeholderMarker: u64, stubComment: u64,
    placeholderComment: u64, printlnMacro: u64, eprintlnMacro: u64, dbgMacro: u64)

  const NO_COUNTS := CrateCounts(0, 0, 0, 0, 0, 0, 0, 0, 0, 0, 0, 0, 0, 0)

  datatype Kv = Kv(key: string, value: u64)

  // The metrics in the order they are written.
  function Kvs(c: CrateCounts): seq<Kv> {
    [Kv("files", c.files),
     Kv("loc", c.loc),
     Kv("unwrap_used", c.unwrapUsed),
     Kv("expect_used", c.expectUsed),
     Kv("panic_macro", c.panicMacro),
     Kv("todo_macro", c.todoMacro),
     Kv("unimplemented_macro", c.unimplementedMacro),
     Kv("box_dyn_any", c.boxDynAny),
     Kv("placeholder_marker", c.placeholderMarker),
     Kv("stub_comment", c.stubComment),
     Kv("placeholder_comment", c.placeholderComment),
     Kv("println_macro", c.printlnMacro),
     Kv("eprintln_macro", c.eprintlnMacro),
     Kv("dbg_macro", c.dbgMacro)]
  }

  // The parser's assignment to the field a key names; other keys are ignored.
  function Assign(c: CrateCounts, k: string, v: u64): CrateCounts {
    if k == "files" then c.(files := v)
    else if k == "loc" then c.(loc := v)
    else if k == "unwrap_used" then c.(unwrapUsed := v)
    else if k == "expect_used" then c.(expectUsed := v)
    else if k == "panic_macro" then c.(panicMacro := v)
    else if k == "todo_macro" then c.(todoMacro := v)
    else if k == "unimplemented_macro" then c.(unimplementedMacro := v)
    else if k == "box_dyn_any" then c.(boxDynAny := v)
    else if k == "placeholder_marker" then c.(placeholderMarker := v)
    else if k == "stub_comment" then c.(stubComment := v)
    else if k == "placeholder_comment" then c.(placeholderComment := v)
    else if k == "println_macro" then c.(printlnMacro := v)
    else if k == "eprintln_macro" then c.(eprintlnMacro := v)
    else if k == "dbg_macro" then c.(dbgMacro := v)
    else c
  }

  datatype Entry = Entry(name: string, counts: CrateCounts)

  // ---- The printed text ----------------------------------------------------

  function Quoted(k: string, rest: string): string {
    "\"" + (k + ("\"" + rest))
  }

  // The metrics from number j on, and then some more text.
  function CountsThen(kvs: seq<Kv>, j: nat, indent: string, tail: string): string
    requires j <= |kvs|
    decreases |kvs| - j
  {
    if j == |kvs| then tail
    else (if j > 0 then "," else "") + ("\n" + (indent +
           Quoted(kvs[j].key, ": " + (Decimal(kvs[j].value) + CountsThen(kvs, j + 1, indent, tail)))))
  }

  // The crates from entry i on, and then some more text.  What is printed of
  // one crate's counts is a parameter here, and `Kvs` below.
  function CratesThen(row: CrateCounts -> seq<Kv>, m: seq<Entry>, i: nat, tail: string): string
    requires i <= |m|
    decreases |m| - i
  {
    if i == |m| then tail
    else (if i > 0 then "," else "") + ("\n    " +
           Quoted(m[i].name, ": {" + CountsThen(row(m[i].counts), 0, "      ", "\n    }" + CratesThen(row, m, i + 1, tail))))
  }

  function TotalsThen(kvs: seq<Kv>, tail: string): string {
    "\n  },\n  " + Quoted("total", ": {" + CountsThen(kvs, 0, "    ", tail))
  }

  function JsonOf(row: CrateCounts -> seq<Kv>, m: seq<Entry>, total: CrateCounts): string {
    "{\n  " + Quoted("crates", ": {" + CratesThen(row, m, 0, TotalsThen(row(total), "\n  }\n}\n")))
  }

  function Json(m: seq<Entry>, total: CrateCounts): string {
    JsonOf(Kvs, m, total)
  }

  // ---- The printer ---------------------------------------------------------

  lemma QuotedPrefix(pre: string, k: string, post: string, rest: string)
    ensures pre + Quoted(k, post + rest) == (pre + "\"" + k + "\"" + post) + rest
  {
  }

  lemma {:induction false} CountsAppend(kvs: seq<Kv>, j: nat, indent: string, tail: string)
    requires j <= |kvs|
    ensures CountsThen(kvs, j, indent, tail) == CountsThen(kvs, j, indent, "") + tail
    decreases |kvs| - j
  {
    if j == |kvs| {
      assert "" + tail == tail;
    } else {
      CountsAppend(kvs, j + 1, indent, tail);
      var rest := CountsThen(kvs, j + 1, indent, "");
      LineThen(if j > 0 then "," else "", indent, kvs[j], rest);
      LineThen(if j > 0 then "," else "", indent, kvs[j], rest + tail);
      Regroup((if j > 0 then "," else "") + Line(indent, kvs[j]), rest, tail);
    }
  }

  function Line(indent: string, kv: Kv): string {
    "\n" + indent + "\"" + kv.key + "\": " + Decimal(kv.value)
  }

  lemma LineThen(sep: string, indent: string, kv: Kv, rest: string)
    ensures sep + ("\n" + (indent + Quoted(kv.key, ": " + (Decimal(kv.value) + rest)))) == (sep + Line(indent, kv)) + rest
  {
    var colon, digits := ": ", Decimal(kv.value);
    assert "\"" + colon == "\": ";
    Regroup(colon, digits, rest);
    QuotedPrefix("\n" + indent, kv.key, colon + digits, rest);
    assert "\n" + indent + "\"" + kv.key + "\"" + (colon + digits) == Line(indent, kv);
    Regroup("\n", indent, Quoted(kv.key, (colon + digits) + rest));
    Regroup(sep, Line(indent, kv), rest);
  }

  // Push one piece of what is still to be written.
  lemma Push(s: string, sep: string, piece: string, rest: string)
    ensures s + ((sep + piece) + rest) == ((s + sep) + piece) + rest
  {
  }

  method WriteCounts(s: string, kvs: seq<Kv>, indent: string) returns (s': string)
    ensures s' == s + CountsThen(kvs, 0, indent, "")
  {
    s' := s;
    for j := 0 to |kvs|
      invariant s' + CountsThen(kvs, j, indent, "") == s + CountsThen(kvs, 0, indent, "")
    {
      ghost var rest := CountsThen(kvs, j + 1, indent, "");
      LineThen(if j > 0 then "," else "", indent, kvs[j], rest);
      Push(s', if j > 0 then "," else "", Line(indent, kvs[j]), rest);
      if j > 0 {
        s' := s' + ",";
      }
      s' := s' + Line(indent, kvs[j]);
    }
  }

  function Header(name: string): string {
    "\n    \"" + name + "\": {"
  }

  lemma HeaderThen(sep: string, name: string, rest: string)
    ensures sep + ("\n    " + Quoted(name, ": {" + rest)) == (sep + Header(name)) + rest
  {
    QuotedPrefix("\n    ", name, ": {", rest);
    assert "\n    " + "\"" + name + "\"" + ": {" == Header(name);
    Regroup(sep, Header(name), rest);
  }

  lemma CrateThen(s: string, row: CrateCounts -> seq<Kv>, m: seq<Entry>, i: nat, tail: string)
    requires i < |m|
    ensures var header := (s + (if i > 0 then "," else "")) + Header(m[i].name);
            s + CratesThen(row, m, i, tail)
            == ((header + CountsThen(row(m[i].counts), 0, "      ", "")) + "\n    }") + CratesThen(row, m, i + 1, tail)
  {
    var sep, header, kvs := if i > 0 then "," else "", Header(m[i].name), row(m[i].counts);
    var close, rest := "\n    }", CratesThen(row, m, i + 1, tail);
    CountsAppend(kvs, 0, "      ", close + rest);
    HeaderThen(sep, m[i].name, CountsThen(kvs, 0, "      ", close + rest));
    Push(s, sep, header, CountsThen(kvs, 0, "      ", "") + (close + rest));
    Regroup((s + sep) + header, CountsThen(kvs, 0, "      ", ""), close + rest);
    Regroup(((s + sep) + header) + CountsThen(kvs, 0, "      ", ""), close, rest);
  }

  lemma JsonStart(row: CrateCounts -> seq<Kv>, m: seq<Entry>, total: CrateCounts)
    ensures JsonOf(row, m, total) == "{\n  \"crates\": {" + CratesThen(row, m, 0, TotalsThen(row(total), "\n  }\n}\n"))
  {
    QuotedPrefix("{\n  ", "crates", ": {", CratesThen(row, m, 0, TotalsThen(row(total), "\n  }\n}\n")));
    assert "{\n  " + "\"" + "crates" + "\"" + ": {" == "{\n  \"crates\": {";
  }

  lemma TotalsEnd(s: string, kvs: seq<Kv>, tail: string)
    ensures s + TotalsThen(kvs, tail) == ((s + "\n  },\n  \"total\": {") + CountsThen(kvs, 0, "    ", "")) + tail
  {
    CountsAppend(kvs, 0, "    ", tail);
    QuotedPrefix("\n  },\n  ", "total", ": {", CountsThen(kvs, 0, "    ", "") + tail);
    var opening := "\n  },\n  \"total\": {";
    assert "\n  },\n  " + "\"" + "total" + "\"" + ": {" == opening;
    Regroup(s, opening, CountsThen(kvs, 0, "    ", "") + tail);
    Regroup(s + opening, CountsThen(kvs, 0, "    ", ""), tail);
  }

  method WriteCrate(s: string, sep: string, name: string, kvs: seq<Kv>) returns (s': string)
    ensures s' == (((s + sep) + Header(name)) + CountsThen(kvs, 0, "      ", "")) + "\n    }"
  {
    s' := (s + sep) + Header(name);
    s' := WriteCounts(s', kvs, "      ");
    s' := s' + "\n    }";
  }

  method WriteJson(row: CrateCounts -> seq<Kv>, perCrate: seq<Entry>, total: CrateCounts) returns (s: string)
    ensures s == JsonOf(row, perCrate, total)
  {
    s := "{\n  \"crates\": {";
    JsonStart(row, perCrate, total);
    ghost var tail := TotalsThen(row(total), "\n  }\n}\n");
    for i := 0 to |perCrate|
      invariant s + CratesThen(row, perCrate, i, tail) == JsonOf(row, perCrate, total)
    {
      CrateThen(s, row, perCrate, i, tail);
      s := WriteCrate(s, if i > 0 then "," else "", perCrate[i].name, row(perCrate[i].counts));
    }
    TotalsEnd(s, row(total), "\n  }\n}\n");
    s := s + "\n  },\n  \"total\": {";
    s := WriteCounts(s, row(total), "    ");
    s := s + "\n  }\n}\n";
  }

  method AuditJson(perCrate: seq<Entry>, total: CrateCounts) returns (s: string)
    ensures s == Json(perCrate, total)
  {
    s := WriteJson(Kvs, perCrate, total);
  }

  // ---- The parser ----------------------------------------------------------

  function KeyPattern(name: string): string {
    "\"" + (name + "\":")
  }

  // One token of a body: skipped without a colon, fatal without a number.
  function ParseToken(token: string, c: CrateCounts): Option<CrateCounts> {
    match SplitOnce(Strip(token, IsSpace), ':')
    case None => Some(c)
    case Some((k, v)) =>
      match ParseUsize(Strip(v, IsSpace))
      case None => None
      case Some(n) => Some(Assign(c, Strip(Strip(k, IsSpace), IsQuote), n))
  }

  function ParseTokens(tokens: seq<string>, c: CrateCounts, step: (string, CrateCounts) -> Option<CrateCounts>)
    : Option<CrateCounts>
  {
    if tokens == [] then Some(c)
    else
      match step(tokens[0], c)
      case None => None
      case Some(c') => ParseTokens(tokens[1..], c', step)
  }

  function ParseBody(body: string, c: CrateCounts): Option<CrateCounts> {
    ParseTokens(Split(body, ','), c, ParseToken)
  }

  // The text between the first braces.
  function Body(after: string): Option<string> {
    match After(after, "{")
    case None => None
    case Some(inside) => Before(inside, "}")
  }

  function ParseAfterKey(after: string): Option<CrateCounts> {
    match Body(after)
    case None => None
    case Some(body) => ParseBody(body, NO_COUNTS)
  }

  function Parsed(text: string, name: string): Option<CrateCounts> {
    match After(text, KeyPattern(name))
    case None => None
    case Some(after) => ParseAfterKey(after)
  }

  lemma OpeningIsNotClosing(rest: string)
    ensures FindFrom("{" + rest, "}", 0) == match FindFrom(rest, "}", 0) case None => None case Some(k) => Some(1 + k)
  {
    assert ("{" + rest)[0..1] == "{";
    FindSkips("{", rest, "}");
  }

  lemma FromTheBrace(after: string, open: nat)
    requires FindFrom(after, "{", 0) == Some(open)
    ensures after[open..] == "{" + after[open + 1..]
  {
    FoundFirst(after, "{", 0);
    assert after[open..open + 1][0] == '{';
  }

  // The code looks for the closing brace from the opening one on.
  lemma CloseBrace(after: string, open: nat)
    requires FindFrom(after, "{", 0) == Some(open)
    ensures match FindFrom(after[open..], "}", 0)
            case None => Before(after[open + 1..], "}") == None
            case Some(k) => k > 0 && Before(after[open + 1..], "}") == Some(after[open + 1..open + k])
  {
    var rest := after[open + 1..];
    FromTheBrace(after, open);
    OpeningIsNotClosing(rest);
    match FindFrom(rest, "}", 0)
    case Some(k) => SliceOfSlice(after, open + 1, k);
    case None =>
  }

  lemma SliceOfSlice<T>(s: seq<T>, i: nat, k: nat)
    requires i + k <= |s|
    ensures s[i..][..k] == s[i..i + k]
  {
  }

  method ReadToken(raw: string, c: CrateCounts) returns (r: Option<CrateCounts>)
    ensures r == ParseToken(raw, c)
  {
    var token := Strip(raw, IsSpace);
    var pair := SplitOnce(token, ':');
    r := Some(c);
    if pair.Some? {
      var k := Strip(Strip(pair.value.0, IsSpace), IsQuote);
      var v := ParseUsize(Strip(pair.value.1, IsSpace));
      r := if v.Some? then Some(Assign(c, k, v.value)) else None;
    }
  }

  method ReadTokens(tokens: seq<string>) returns (r: Option<CrateCounts>)
    ensures r == ParseTokens(tokens, NO_COUNTS, ParseToken)
  {
    ghost var step: (string, CrateCounts) -> Option<CrateCounts> := ParseToken;
    var c := NO_COUNTS;
    assert tokens[0..] == tokens;
    for i := 0 to |tokens|
      invariant ParseTokens(tokens, NO_COUNTS, step) == ParseTokens(tokens[i..], c, step)
    {
      assert tokens[i..][1..] == tokens[i + 1..];
      r := ReadToken(tokens[i], c);
      if r.None? {
        return;
      }
      c := r.value;
    }
    return Some(c);
  }

  method FindBody(after: string) returns (body: Option<string>)
    ensures body == Body(after)
  {
    var open := FindFrom(after, "{", 0);
    if open.None? {
      return None;
    }
    CloseBrace(after, open.value);
    var close := FindFrom(after[open.value..], "}", 0);
    body := if close.None? then None else Some(after[open.value + 1..open.value + close.value]);
  }

  method ParseJsonCrate(text: string, crateName: string) returns (r: Option<CrateCounts>)
    ensures r == Parsed(text, crateName)
  {
    var key := KeyPattern(crateName);
    var start := FindFrom(text, key, 0);
    if start.None? {
      return None;
    }
    var body := FindBody(text[start.value + |key|..]);
    if body.None? {
      return None;
    }
    r := ReadTokens(Split(body.value, ','));
  }

  // ---- The regression check ------------------------------------------------

  datatype Regression = Regression(crateName: string, metric: string, baseline: u64, current: u64)

  // The first two metrics, files and loc, are reported but not checked.
  const FIRST_CHECKED: nat := 2

  function WorseAt(name: string, current: Kv, baseline: Kv): seq<Regression> {
    if current.value > baseline.value then [Regression(name, current.key, baseline.value, current.value)] else []
  }

  function Worse(name: string, current: seq<Kv>, baseline: seq<Kv>, j: nat): seq<Regression>
    requires j <= |current| == |baseline|
    decreases |current| - j
  {
    if j == |current| then [] else WorseAt(name, current[j], baseline[j]) + Worse(name, current, baseline, j + 1)
  }

  function BaselineOf(text: string, name: string): CrateCounts {
    match Parsed(text, name)
    case None => NO_COUNTS
    case Some(c) => c
  }

  function WorseThan(e: Entry, baseline: CrateCounts): seq<Regression> {
    Worse(e.name, Kvs(e.counts), Kvs(baseline), FIRST_CHECKED)
  }

  // The regressions of all crates, each against its own baseline.
  function Regressions(m: seq<Entry>, worse: Entry -> seq<Regression>, i: nat): seq<Regression>
    requires i <= |m|
    decreases |m| - i
  {
    if i == |m| then [] else worse(m[i]) + Regressions(m, worse, i + 1)
  }

  function AllRegressions(m: seq<Entry>, text: string): seq<Regression> {
    Regressions(m, (e: Entry) => WorseThan(e, BaselineOf(text, e.name)), 0)
  }

  method CheckMetric(found: seq<Regression>, crateName: string, current: Kv, baseline: Kv) returns (found': seq<Regression>)
    ensures found' == found + WorseAt(crateName, current, baseline)
  {
    found' := found;
    if current.value > baseline.value {
      found' := found' + [Regression(crateName, current.key, baseline.value, current.value)];
    }
  }

  method CheckMetrics(found: seq<Regression>, crateName: string, current: seq<Kv>, baseline: seq<Kv>)
    returns (found': seq<Regression>)
    requires |current| == |baseline| >= FIRST_CHECKED
    ensures found' == found + Worse(crateName, current, baseline, FIRST_CHECKED)
  {
    found' := found;
    for j := FIRST_CHECKED to |current|
      invariant found' + Worse(crateName, current, baseline, j) == found + Worse(crateName, current, baseline, FIRST_CHECKED)
    {
      Regroup(found', WorseAt(crateName, current[j], baseline[j]), Worse(crateName, current, baseline, j + 1));
      found' := CheckMetric(found', crateName, current[j], baseline[j]);
    }
  }

  method CheckCrate(found: seq<Regression>, e: Entry, text: string) returns (found': seq<Regression>)
    ensures found' == found + WorseThan(e, BaselineOf(text, e.name))
  {
    var parsed := ParseJsonCrate(text, e.name);
    var baseline := if parsed.Some? then parsed.value else NO_COUNTS;
    found' := CheckMetrics(found, e.name, Kvs(e.counts), Kvs(baseline));
  }

  method CheckAgainst(perCrate: seq<Entry>, text: string) returns (found: seq<Regression>)
    ensures found == AllRegressions(perCrate, text)
  {
    ghost var worse := (e: Entry) => WorseThan(e, BaselineOf(text, e.name));
    found := [];
    for i := 0 to |perCrate|
      invariant found + Regressions(perCrate, worse, i) == Regressions(perCrate, worse, 0)
    {
      Regroup(found, worse(perCrate[i]), Regressions(perCrate, worse, i + 1));
      found := CheckCrate(found, perCrate[i], text);
    }
  }
}
