// The regression check and the report's text, field by field.
module AuditChecks {
  import opened Wrappers
  import opened Text
  import opened Audit
  import opened AuditLaws

  // ---- What is checked -----------------------------------------------------

  // No metric of the first is above the second's.
  predicate NoneAbove(c: CrateCounts, b: CrateCounts) {
    && c.unwrapUsed <= b.unwrapUsed
    && c.expectUsed <= b.expectUsed
    && c.panicMacro <= b.panicMacro
    && c.todoMacro <= b.todoMacro
    && c.unimplementedMacro <= b.unimplementedMacro
    && c.boxDynAny <= b.boxDynAny
    && c.placeholderMarker <= b.placeholderMarker
    && c.stubComment <= b.stubComment
    && c.placeholderComment <= b.placeholderComment
    && c.printlnMacro <= b.printlnMacro
    && c.eprintlnMacro <= b.eprintlnMacro
    && c.dbgMacro <= b.dbgMacro
  }

  // One metric's entry in the list, if it has grown.
  function Grown(name: string, metric: string, before: u64, now: u64): seq<Regression> {
    if now > before then [Regression(name, metric, before, now)] else []
  }

  // One crate's regressions.
  function Listed(name: string, c: CrateCounts, b: CrateCounts): seq<Regression> {
    Grown(name, "unwrap_used", b.unwrapUsed, c.unwrapUsed)
    + (Grown(name, "expect_used", b.expectUsed, c.expectUsed)
    + (Grown(name, "panic_macro", b.panicMacro, c.panicMacro)
    + (Grown(name, "todo_macro", b.todoMacro, c.todoMacro)
    + (Grown(name, "unimplemented_macro", b.unimplementedMacro, c.unimplementedMacro)
    + (Grown(name, "box_dyn_any", b.boxDynAny, c.boxDynAny)
    + (Grown(name, "placeholder_marker", b.placeholderMarker, c.placeholderMarker)
    + (Grown(name, "stub_comment", b.stubComment, c.stubComment)
    + (Grown(name, "placeholder_comment", b.placeholderComment, c.placeholderComment)
    + (Grown(name, "println_macro", b.printlnMacro, c.printlnMacro)
    + (Grown(name, "eprintln_macro", b.eprintlnMacro, c.eprintlnMacro)
    + Grown(name, "dbg_macro", b.dbgMacro, c.dbgMacro)))))))))))
  }

  lemma WorseOnce(name: string, current: seq<Kv>, baseline: seq<Kv>, j: nat)
    requires j < |current| == |baseline|
    ensures Worse(name, current, baseline, j)
         == Grown(name, current[j].key, baseline[j].value, current[j].value) + Worse(name, current, baseline, j + 1)
  {
  }

  // The last metrics, and the ones before them.
  lemma WorseFrom8(name: string, c: CrateCounts, b: CrateCounts, from: nat)
    requires from == 8
    ensures Worse(name, Kvs(c), Kvs(b), from)
         == Grown(name, "placeholder_marker", b.placeholderMarker, c.placeholderMarker)
          + (Grown(name, "stub_comment", b.stubComment, c.stubComment)
          + (Grown(name, "placeholder_comment", b.placeholderComment, c.placeholderComment)
          + (Grown(name, "println_macro", b.printlnMacro, c.printlnMacro)
          + (Grown(name, "eprintln_macro", b.eprintlnMacro, c.eprintlnMacro)
          + Grown(name, "dbg_macro", b.dbgMacro, c.dbgMacro)))))
  {
    var x, y := Kvs(c), Kvs(b);
    WorseOnce(name, x, y, from);
    WorseOnce(name, x, y, from + 1);
    WorseOnce(name, x, y, from + 2);
    WorseOnce(name, x, y, from + 3);
    WorseOnce(name, x, y, from + 4);
    WorseOnce(name, x, y, from + 5);
    assert Worse(name, x, y, from + 6) == [];
    assert Grown(name, "dbg_macro", b.dbgMacro, c.dbgMacro) + [] == Grown(name, "dbg_macro", b.dbgMacro, c.dbgMacro);
  }

  lemma CrateListed(name: string, c: CrateCounts, b: CrateCounts, from: nat)
    requires from == 2
    ensures Worse(name, Kvs(c), Kvs(b), from) == Listed(name, c, b)
  {
    var x, y := Kvs(c), Kvs(b);
    WorseOnce(name, x, y, from);
    WorseOnce(name, x, y, from + 1);
    WorseOnce(name, x, y, from + 2);
    WorseOnce(name, x, y, from + 3);
    WorseOnce(name, x, y, from + 4);
    WorseOnce(name, x, y, from + 5);
    WorseFrom8(name, c, b, from + 6);
  }

  // What a crate is held against: what the report says of it, or else zero.
  function Allowed(text: string, name: string): CrateCounts {
    match Parsed(text, name)
    case None => NO_COUNTS
    case Some(b) => b
  }

  function ListedFor(text: string): Entry -> seq<Regression> {
    (e: Entry) => Listed(e.name, e.counts, Allowed(text, e.name))
  }

  // Crate by crate, in order.
  function InOrder(m: seq<Entry>, listed: Entry -> seq<Regression>): seq<Regression> {
    if m == [] then [] else InOrder(m[..|m| - 1], listed) + listed(m[|m| - 1])
  }

  lemma {:induction false} RegressionsSnoc(m: seq<Entry>, e: Entry, worse: Entry -> seq<Regression>, i: nat)
    requires i <= |m|
    ensures Regressions(m + [e], worse, i) == Regressions(m, worse, i) + worse(e)
    decreases |m| - i
  {
    if i < |m| {
      RegressionsSnoc(m, e, worse, i + 1);
      Regroup(worse(m[i]), Regressions(m, worse, i + 1), worse(e));
    } else {
      assert Regressions(m + [e], worse, i + 1) == [];
    }
  }

  lemma {:induction false} RegressionsInOrder(m: seq<Entry>, worse: Entry -> seq<Regression>, listed: Entry -> seq<Regression>)
    requires forall e :: worse(e) == listed(e)
    ensures Regressions(m, worse, 0) == InOrder(m, listed)
  {
    if m != [] {
      var n := |m| - 1;
      assert m == m[..n] + [m[n]];
      RegressionsInOrder(m[..n], worse, listed);
      RegressionsSnoc(m[..n], m[n], worse, 0);
    }
  }

  // The list of regressions: for every crate in order, exactly the checked metrics
  // that are above the baseline, in order, with both numbers.
  lemma RegressionsAreListed(m: seq<Entry>, text: string)
    ensures AllRegressions(m, text) == InOrder(m, ListedFor(text))
  {
    var worse := (e: Entry) => WorseThan(e, BaselineOf(text, e.name));
    forall e ensures worse(e) == ListedFor(text)(e) {
      CrateListed(e.name, e.counts, BaselineOf(text, e.name), FIRST_CHECKED);
    }
    RegressionsInOrder(m, worse, ListedFor(text));
  }

  lemma {:induction false} NothingInOrder(m: seq<Entry>, listed: Entry -> seq<Regression>)
    ensures InOrder(m, listed) == [] <==> forall x :: 0 <= x < |m| ==> listed(m[x]) == []
  {
    if m != [] {
      NothingInOrder(m[..|m| - 1], listed);
    }
  }

  lemma NothingListed(name: string, c: CrateCounts, b: CrateCounts)
    ensures Listed(name, c, b) == [] <==> NoneAbove(c, b)
  {
  }

  // The check passes exactly when no crate is above its baseline in any of the
  // twelve metrics.
  lemma CheckExact(m: seq<Entry>, text: string)
    ensures AllRegressions(m, text) == [] <==> forall x :: 0 <= x < |m| ==> NoneAbove(m[x].counts, Allowed(text, m[x].name))
  {
    RegressionsAreListed(m, text);
    NothingInOrder(m, ListedFor(text));
    forall x | 0 <= x < |m| ensures ListedFor(text)(m[x]) == [] <==> NoneAbove(m[x].counts, Allowed(text, m[x].name)) {
      NothingListed(m[x].name, m[x].counts, Allowed(text, m[x].name));
    }
  }

  // One more `unwrap` than the report allows is reported as just that.
  lemma OneMoreUnwrap(text: string, c: CrateCounts)
    requires Parsed(text, "a") == Some(c) && c.unwrapUsed == 0
    ensures AllRegressions([Entry("a", c.(unwrapUsed := 1))], text) == [Regression("a", "unwrap_used", 0, 1)]
  {
    var m := [Entry("a", c.(unwrapUsed := 1))];
    RegressionsAreListed(m, text);
    assert m[..0] == [] && InOrder(m[..0], ListedFor(text)) == [];
  }

  // ---- A tree against its own report ---------------------------------------

  function FoundOrZero(m: seq<Entry>, i: nat): CrateCounts
    requires i < |m|
  {
    if Found(m, i).Some? then Found(m, i).value else NO_COUNTS
  }

  // A tree checked against its own report passes exactly when no crate exceeds
  // what the parser finds for it.
  lemma SelfCheck(m: seq<Entry>, total: CrateCounts)
    requires WellNamed(m)
    ensures AllRegressions(m, Json(m, total)) == []
       <==> forall i :: 0 <= i < |m| ==> NoneAbove(m[i].counts, FoundOrZero(m, i))
  {
    CheckExact(m, Json(m, total));
    forall i | 0 <= i < |m| ensures Allowed(Json(m, total), m[i].name) == FoundOrZero(m, i) {
      ParsedExactly(m, total, i);
    }
  }

  // What a crate with this name is compared with, in a map of brace-free names.
  predicate PassesItself(m: seq<Entry>, i: nat)
    requires i < |m|
  {
    && (m[i].name == "crates" ==> NoneAbove(m[i].counts, NO_COUNTS))
    && (IsMetricKey(m[i].name) && i >= 2 ==> NoneAbove(m[i].counts, m[1].counts))
  }

  lemma PassesItselfExactly(m: seq<Entry>, i: nat)
    requires Braceless(m) && i < |m|
    ensures NoneAbove(m[i].counts, FoundOrZero(m, i)) <==> PassesItself(m, i)
  {
    FoundBraceless(m, i);
    if m[i].name == "crates" {
      CratesIsNoMetric();
    }
  }

  lemma CratesIsNoMetric()
    ensures !IsMetricKey("crates")
  {
    assert "crates"[0] == 'c';
  }

  // For brace-free names: a tree passes its own report exactly when a crate
  // called "crates" has nothing to report, and each one from the third on that
  // is named like a metric does not exceed the second.
  lemma SelfCheckExactly(m: seq<Entry>, total: CrateCounts)
    requires WellNamed(m) && Braceless(m)
    ensures AllRegressions(m, Json(m, total)) == [] <==> forall i :: 0 <= i < |m| ==> PassesItself(m, i)
  {
    SelfCheck(m, total);
    forall i | 0 <= i < |m| ensures NoneAbove(m[i].counts, FoundOrZero(m, i)) <==> PassesItself(m, i) {
      PassesItselfExactly(m, i);
    }
  }

  // So ordinary names always pass ...
  lemma SelfCheckPasses(m: seq<Entry>, total: CrateCounts)
    requires WellNamed(m) && Braceless(m)
    requires forall i :: 0 <= i < |m| ==> m[i].name != "crates" && !IsMetricKey(m[i].name)
    ensures AllRegressions(m, Json(m, total)) == []
  {
    SelfCheckExactly(m, total);
  }

  function ThreeCrates(worse: CrateCounts): seq<Entry> {
    [Entry("a", NO_COUNTS), Entry("b", NO_COUNTS), Entry("loc", worse)]
  }

  lemma ThreeCratesNamed(worse: CrateCounts)
    ensures WellNamed(ThreeCrates(worse)) && Braceless(ThreeCrates(worse))
  {
    assert "a"[0] != "b"[0];
  }

  lemma LocIsAMetric()
    ensures IsMetricKey("loc")
  {
    assert Kvs(NO_COUNTS)[1].key == "loc";
  }

  // ... and these do not.
  lemma SelfCheckCanFail(total: CrateCounts)
    ensures var m := ThreeCrates(NO_COUNTS.(dbgMacro := 1)); AllRegressions(m, Json(m, total)) != []
  {
    var worse := NO_COUNTS.(dbgMacro := 1);
    ThreeCratesNamed(worse);
    LocIsAMetric();
    SelfCheckExactly(ThreeCrates(worse), total);
    assert !PassesItself(ThreeCrates(worse), 2);
  }

  // ---- The text of the report ----------------------------------------------

  function Row(indent: string, key: string, n: u64): string {
    "\n" + indent + "\"" + key + "\": " + Decimal(n)
  }

  // The fourteen metrics by number.
  function Metric(i: nat): string {
    match i
    case 0 => "files"
    case 1 => "loc"
    case 2 => "unwrap_used"
    case 3 => "expect_used"
    case 4 => "panic_macro"
    case 5 => "todo_macro"
    case 6 => "unimplemented_macro"
    case 7 => "box_dyn_any"
    case 8 => "placeholder_marker"
    case 9 => "stub_comment"
    case 10 => "placeholder_comment"
    case 11 => "println_macro"
    case 12 => "eprintln_macro"
    case _ => "dbg_macro"
  }

  function Amount(c: CrateCounts, i: nat): u64 {
    match i
    case 0 => c.files
    case 1 => c.loc
    case 2 => c.unwrapUsed
    case 3 => c.expectUsed
    case 4 => c.panicMacro
    case 5 => c.todoMacro
    case 6 => c.unimplementedMacro
    case 7 => c.boxDynAny
    case 8 => c.placeholderMarker
    case 9 => c.stubComment
    case 10 => c.placeholderComment
    case 11 => c.printlnMacro
    case 12 => c.eprintlnMacro
    case _ => c.dbgMacro
  }

  lemma KvIs(c: CrateCounts, i: nat)
    requires i < 14
    ensures |Kvs(c)| == 14 && Kvs(c)[i] == Kv(Metric(i), Amount(c, i))
  {
  }

  // Texts one after another, with commas between them.
  function Joined(texts: seq<string>): string {
    if texts == [] then ""
    else
      var n := |texts| - 1;
      Joined(texts[..n]) + ((if n > 0 then "," else "") + texts[n])
  }

  // The metrics of one crate, one to a line.
  function Lines(c: CrateCounts, indent: string): seq<string> {
    seq(14, i requires 0 <= i < 14 => Row(indent, Metric(i), Amount(c, i)))
  }

  function Rows(c: CrateCounts, indent: string): string {
    Joined(Lines(c, indent))
  }

  lemma RowOnce(kvs: seq<Kv>, j: nat, indent: string)
    requires j < |kvs|
    ensures CountsThen(kvs, j, indent, "")
         == ((if j > 0 then "," else "") + Row(indent, kvs[j].key, kvs[j].value)) + CountsThen(kvs, j + 1, indent, "")
  {
    LineThen(if j > 0 then "," else "", indent, kvs[j], CountsThen(kvs, j + 1, indent, ""));
  }

  lemma {:induction false} JoinedSoFar(kvs: seq<Kv>, texts: seq<string>, indent: string, i: nat)
    requires i <= |kvs| == |texts| && forall k :: 0 <= k < |kvs| ==> texts[k] == Row(indent, kvs[k].key, kvs[k].value)
    ensures Joined(texts[..i]) + CountsThen(kvs, i, indent, "") == CountsThen(kvs, 0, indent, "")
    decreases i
  {
    if i > 0 {
      var n := i - 1;
      JoinedSoFar(kvs, texts, indent, n);
      RowOnce(kvs, n, indent);
      JoinedSnoc(texts, n);
      Regroup(Joined(texts[..n]), (if n > 0 then "," else "") + texts[n], CountsThen(kvs, n + 1, indent, ""));
    } else {
      NoText(CountsThen(kvs, i, indent, ""));
    }
  }

  lemma JoinedSnoc(texts: seq<string>, n: nat)
    requires n < |texts|
    ensures Joined(texts[..n + 1]) == Joined(texts[..n]) + ((if n > 0 then "," else "") + texts[n])
  {
    assert texts[..n + 1][..n] == texts[..n];
  }

  lemma RowsAre(c: CrateCounts, from: nat, indent: string)
    requires from == 0
    ensures CountsThen(Kvs(c), from, indent, "") == Rows(c, indent)
  {
    var kvs, texts := Kvs(c), Lines(c, indent);
    forall k | 0 <= k < 14 ensures |kvs| == 14 && texts[k] == Row(indent, kvs[k].key, kvs[k].value) {
      KvIs(c, k);
    }
    KvIs(c, from);
    WholeJoined(kvs, texts, indent, from);
  }

  lemma WholeJoined(kvs: seq<Kv>, texts: seq<string>, indent: string, from: nat)
    requires from == 0 && |kvs| == |texts| && forall k :: 0 <= k < |kvs| ==> texts[k] == Row(indent, kvs[k].key, kvs[k].value)
    ensures CountsThen(kvs, from, indent, "") == Joined(texts)
  {
    JoinedSoFar(kvs, texts, indent, |kvs|);
    assert texts[..|kvs|] == texts;
    assert Joined(texts) + "" == Joined(texts);
  }

  lemma AllRowsAre(indent: string, from: nat)
    requires from == 0
    ensures forall c :: Rows(c, indent) == CountsThen(Kvs(c), from, indent, "")
  {
    forall c ensures Rows(c, indent) == CountsThen(Kvs(c), from, indent, "") {
      RowsAre(c, from, indent);
    }
  }

  function CrateText(sep: string, name: string, rows: string): string {
    (((sep + ("\n    \"" + name + "\": {")) + rows) + "\n    }")
  }

  function CratesText(m: seq<Entry>, rows: CrateCounts -> string): string {
    if m == [] then ""
    else
      var n := |m| - 1;
      CratesText(m[..n], rows) + CrateText(if n > 0 then "," else "", m[n].name, rows(m[n].counts))
  }

  lemma CratesTextSnoc(m: seq<Entry>, rows: CrateCounts -> string, n: nat)
    requires n < |m|
    ensures CratesText(m[..n + 1], rows) == CratesText(m[..n], rows) + CrateText(if n > 0 then "," else "", m[n].name, rows(m[n].counts))
  {
    assert m[..n + 1][..n] == m[..n];
  }

  lemma {:induction false} CratesTextIs(row: CrateCounts -> seq<Kv>, rows: CrateCounts -> string, m: seq<Entry>, i: nat, tail: string)
    requires forall c :: rows(c) == CountsThen(row(c), 0, "      ", "")
    requires i <= |m|
    ensures CratesText(m[..i], rows) + CratesThen(row, m, i, tail) == CratesThen(row, m, 0, tail)
    decreases i
  {
    if i > 0 {
      CratesTextIs(row, rows, m, i - 1, tail);
      CratesTextSnoc(m, rows, i - 1);
      CrateTextNext(CratesText(m[..i - 1], rows), row, rows, m, i - 1, tail);
    } else {
      NoText(CratesThen(row, m, i, tail));
    }
  }

  lemma NoText(s: string)
    ensures "" + s == s
  {
  }

  lemma CrateTextNext(s: string, row: CrateCounts -> seq<Kv>, rows: CrateCounts -> string, m: seq<Entry>, n: nat, tail: string)
    requires n < |m| && rows(m[n].counts) == CountsThen(row(m[n].counts), 0, "      ", "")
    ensures s + CratesThen(row, m, n, tail)
         == (s + CrateText(if n > 0 then "," else "", m[n].name, rows(m[n].counts))) + CratesThen(row, m, n + 1, tail)
  {
    var sep, header, body := if n > 0 then "," else "", Header(m[n].name), rows(m[n].counts);
    CrateThen(s, row, m, n, tail);
    FiveParts(s, sep, header, body, "\n    }");
  }

  lemma FiveParts(s: string, sep: string, header: string, body: string, end: string)
    ensures (((s + sep) + header) + body) + end == s + (((sep + header) + body) + end)
  {
  }

  lemma Assembled(json: string, a: string, b: string, z: string, all: string, crates: string, tail: string, rows: string)
    requires json == a + all && all == crates + tail && "" + tail == (("" + b) + rows) + z
    ensures json == a + crates + b + rows + z
  {
    NoText(b);
    NoText(tail);
    Regroup(b, rows, z);
    Regroup(crates, b, rows + z);
    Regroup(a, crates, b + (rows + z));
  }

  // What is printed: the crates in order, and the totals, each as its rows.
  lemma ReportText(m: seq<Entry>, total: CrateCounts)
    ensures Json(m, total)
         == "{\n  \"crates\": {" + CratesText(m, (c: CrateCounts) => Rows(c, "      "))
            + "\n  },\n  \"total\": {" + Rows(total, "    ") + "\n  }\n}\n"
  {
    var inner, outer, from: nat := "      ", "    ", 0;
    AllRowsAre(inner, from);
    AllRowsAre(outer, from);
    ReportOf(Kvs, (c: CrateCounts) => Rows(c, "      "), m, total, Rows(total, "    "));
  }

  lemma ReportOf(row: CrateCounts -> seq<Kv>, rows: CrateCounts -> string, m: seq<Entry>, total: CrateCounts, totalRows: string)
    requires forall c :: rows(c) == CountsThen(row(c), 0, "      ", "")
    requires totalRows == CountsThen(row(total), 0, "    ", "")
    ensures JsonOf(row, m, total)
         == "{\n  \"crates\": {" + CratesText(m, rows) + "\n  },\n  \"total\": {" + totalRows + "\n  }\n}\n"
  {
    var tail := TotalsThen(row(total), "\n  }\n}\n");
    JsonStart(row, m, total);
    WholeCratesText(row, rows, m, tail);
    TotalsEnd("", row(total), "\n  }\n}\n");
    Assembled(JsonOf(row, m, total), "{\n  \"crates\": {", "\n  },\n  \"total\": {", "\n  }\n}\n",
              CratesThen(row, m, 0, tail), CratesText(m, rows), tail, totalRows);
  }

  lemma WholeCratesText(row: CrateCounts -> seq<Kv>, rows: CrateCounts -> string, m: seq<Entry>, tail: string)
    requires forall c :: rows(c) == CountsThen(row(c), 0, "      ", "")
    ensures CratesThen(row, m, 0, tail) == CratesText(m, rows) + tail
  {
    CratesTextIs(row, rows, m, |m|, tail);
    assert m[..|m|] == m;
  }

  // ---- What a body means ---------------------------------------------------

  // The key and the value of a token, if it has a colon.
  function PairOf(token: string): Option<(string, Option<u64>)> {
    match SplitOnce(Strip(token, IsSpace), ':')
    case None => None
    case Some((k, v)) => Some((Strip(Strip(k, IsSpace), IsQuote), ParseUsize(Strip(v, IsSpace))))
  }

  predicate Readable(token: string) {
    PairOf(token).Some? ==> PairOf(token).value.1.Some?
  }

  predicate AllReadable(tokens: seq<string>) {
    forall i :: 0 <= i < |tokens| ==> Readable(tokens[i])
  }

  // The value that the last token with this key gives it.
  function LastValue(tokens: seq<string>, key: string, before: u64): u64 {
    if tokens == [] then before
    else
      var last := PairOf(tokens[|tokens| - 1]);
      if last.Some? && last.value.0 == key && last.value.1.Some? then last.value.1.value
      else LastValue(tokens[..|tokens| - 1], key, before)
  }

  lemma {:induction false} LastValueCons(token: string, rest: seq<string>, key: string, before: u64)
    ensures LastValue([token] + rest, key, before) == LastValue(rest, key, LastValue([token], key, before))
  {
    if rest == [] {
      assert [token] + rest == [token];
    } else {
      var n := |rest| - 1;
      assert ([token] + rest)[..n + 1] == [token] + rest[..n];
      LastValueCons(token, rest[..n], key, before);
    }
  }

  lemma OneToken(token: string, key: string, before: u64)
    ensures LastValue([token], key, before)
         == if PairOf(token).Some? && PairOf(token).value.0 == key && PairOf(token).value.1.Some? then PairOf(token).value.1.value else before
  {
    assert [token][..0] == [];
  }

  function With(c: CrateCounts, i: nat, v: u64): CrateCounts {
    match i
    case 0 => c.(files := v)
    case 1 => c.(loc := v)
    case 2 => c.(unwrapUsed := v)
    case 3 => c.(expectUsed := v)
    case 4 => c.(panicMacro := v)
    case 5 => c.(todoMacro := v)
    case 6 => c.(unimplementedMacro := v)
    case 7 => c.(boxDynAny := v)
    case 8 => c.(placeholderMarker := v)
    case 9 => c.(stubComment := v)
    case 10 => c.(placeholderComment := v)
    case 11 => c.(printlnMacro := v)
    case 12 => c.(eprintlnMacro := v)
    case _ => c.(dbgMacro := v)
  }

  lemma AssignAt(c: CrateCounts, i: nat, v: u64)
    requires i < 14
    ensures Assign(c, Metric(i), v) == With(c, i, v)
  {
    assert "unwrap_used"[0] == 'u' && "expect_used"[0] == 'e' && "panic_macro"[0] == 'p' && "box_dyn_any"[0] == 'b';
    assert "unimplemented_macro"[0] == 'u' && "placeholder_comment"[0] == 'p';
  }

  lemma WithSets(c: CrateCounts, i: nat, v: u64, j: nat)
    requires i < 14 && j < 14
    ensures Amount(With(c, i, v), j) == if i == j then v else Amount(c, j)
  {
  }

  lemma NotAnEarlyKey(k: string)
    requires forall i :: 0 <= i < 7 ==> Metric(i) != k
    ensures k != "files" && k != "loc" && k != "unwrap_used" && k != "expect_used"
    ensures k != "panic_macro" && k != "todo_macro" && k != "unimplemented_macro"
  {
    assert Metric(0) != k && Metric(1) != k && Metric(2) != k && Metric(3) != k && Metric(4) != k && Metric(5) != k && Metric(6) != k;
  }

  lemma NotALateKey(k: string)
    requires forall i :: 7 <= i < 14 ==> Metric(i) != k
    ensures k != "box_dyn_any" && k != "placeholder_marker" && k != "stub_comment" && k != "placeholder_comment"
    ensures k != "println_macro" && k != "eprintln_macro" && k != "dbg_macro"
  {
    assert Metric(7) != k && Metric(8) != k && Metric(9) != k && Metric(10) != k && Metric(11) != k && Metric(12) != k && Metric(13) != k;
  }

  lemma AssignElsewhere(c: CrateCounts, k: string, v: u64)
    requires forall i :: 0 <= i < 14 ==> Metric(i) != k
    ensures Assign(c, k, v) == c
  {
    NotAnEarlyKey(k);
    NotALateKey(k);
  }

  lemma MetricsAreDistinct(i: nat, j: nat)
    requires i < j < 14
    ensures Metric(i) != Metric(j)
  {
    KvIs(NO_COUNTS, i);
    KvIs(NO_COUNTS, j);
    KeysAreDistinct(Kvs(NO_COUNTS), NO_COUNTS, i, j);
  }

  lemma AssignSets(c: CrateCounts, k: string, v: u64, j: nat)
    requires j < 14
    ensures Amount(Assign(c, k, v), j) == if Metric(j) == k then v else Amount(c, j)
  {
    if i :| 0 <= i < 14 && Metric(i) == k {
      AssignAt(c, i, v);
      WithSets(c, i, v, j);
      if i < j {
        MetricsAreDistinct(i, j);
      } else if j < i {
        MetricsAreDistinct(j, i);
      }
    } else {
      AssignElsewhere(c, k, v);
    }
  }

  lemma TokenSets(token: string, c: CrateCounts, j: nat)
    requires j < 14
    ensures ParseToken(token, c).Some? <==> Readable(token)
    ensures Readable(token) ==> Amount(ParseToken(token, c).value, j) == LastValue([token], Metric(j), Amount(c, j))
  {
    OneToken(token, Metric(j), Amount(c, j));
    if PairOf(token).Some? && PairOf(token).value.1.Some? {
      AssignSets(c, PairOf(token).value.0, PairOf(token).value.1.value, j);
    }
  }

  // Reading tokens succeeds exactly when every token with a colon has a number after
  // it, and then each metric has the value that the last token naming it gives.
  lemma {:induction false} TokensMean(tokens: seq<string>, c: CrateCounts, step: (string, CrateCounts) -> Option<CrateCounts>, j: nat)
    requires j < 14 && forall t, x :: step(t, x) == ParseToken(t, x)
    ensures var r := ParseTokens(tokens, c, step);
            && (r.Some? <==> AllReadable(tokens))
            && (r.Some? ==> Amount(r.value, j) == LastValue(tokens, Metric(j), Amount(c, j)))
  {
    if tokens != [] {
      TokenSets(tokens[0], c, j);
      if Readable(tokens[0]) {
        var c', rest := ParseToken(tokens[0], c).value, tokens[1..];
        TokensMean(rest, c', step, j);
        assert tokens == [tokens[0]] + rest;
        LastValueCons(tokens[0], rest, Metric(j), Amount(c, j));
      }
    }
  }

  // So of a body: it is read exactly when all its values are numbers, and what is
  // not named in it is zero.
  lemma BodyMeans(body: string, j: nat)
    requires j < 14
    ensures var r, tokens := ParseBody(body, NO_COUNTS), Split(body, ',');
            && (r.Some? <==> AllReadable(tokens))
            && (r.Some? ==> Amount(r.value, j) == LastValue(tokens, Metric(j), 0))
  {
    var tokens := Split(body, ',');
    TokensMean(tokens, NO_COUNTS, ParseToken, j);
    assert AllReadable(tokens) <==> ParseTokens(tokens, NO_COUNTS, ParseToken).Some?;
    assert ParseBody(body, NO_COUNTS) == ParseTokens(tokens, NO_COUNTS, ParseToken);
  }
}
