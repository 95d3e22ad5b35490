// Searching the text of an audit report for the key of a crate.  A key pattern
// starts and ends with a quote, so a match starts at a quote: at one that opens
// a quoted key, or at one that closes it.
module AuditSearch {
  import opened Wrappers
  import opened Text
  import opened Audit

  // ---- One quoted key ------------------------------------------------------

  // What follows a closing quote completes the pattern that this quote begins.
  predicate Collides(rest: string, name: string) {
    MatchesAt(rest, name + "\":", 0)
  }

  // At an opening quote the key pattern matches only its own name.
  lemma OpeningMatch(k: string, rest: string, name: string)
    requires Lacks(k, '"') && Lacks(name, '"')
    requires MatchesAt(Quoted(k, rest), KeyPattern(name), 0)
    ensures k == name
  {
    var text, pat := Quoted(k, rest), KeyPattern(name);
    assert forall i :: 0 <= i < |pat| ==> text[i] == pat[i];
    assert text[1 + |k|] == '"' && pat[1 + |name|] == '"';
    assert forall i :: 0 <= i < |k| ==> text[1 + i] == k[i];
    assert forall i :: 0 <= i < |name| ==> pat[1 + i] == name[i];
    assert |k| == |name|;
  }

  lemma ClosingMatch(rest: string, name: string)
    ensures MatchesAt("\"" + rest, KeyPattern(name), 0) <==> Collides(rest, name)
  {
    var text, pat, end := "\"" + rest, KeyPattern(name), name + "\":";
    assert pat == "\"" + end;
    if |end| <= |rest| {
      assert text[..|pat|] == "\"" + rest[..|end|];
      assert text[..|pat|][1..] == rest[..|end|];
    }
  }

  // Skip what precedes a key's closing quote.
  lemma ToClosing(k: string, rest: string, name: string)
    requires Lacks(k, '"') && Lacks(name, '"') && k != name
    ensures After(Quoted(k, rest), KeyPattern(name)) == After("\"" + rest, KeyPattern(name))
  {
    var pat, front := KeyPattern(name), "\"" + k;
    var text := Quoted(k, rest);
    assert text == front + ("\"" + rest);
    forall p | 0 <= p < |front| ensures !MatchesAt(text, pat, p) {
      if p == 0 {
        if MatchesAt(text, pat, 0) {
          OpeningMatch(k, rest, name);
        }
      } else {
        assert text[p] == k[p - 1];
        assert pat[0] == '"';
      }
    }
    AfterSkips(front, "\"" + rest, pat);
  }

  lemma PassKey(k: string, rest: string, name: string)
    requires Lacks(k, '"') && Lacks(name, '"') && k != name && !Collides(rest, name)
    ensures After(Quoted(k, rest), KeyPattern(name)) == After(rest, KeyPattern(name))
  {
    ToClosing(k, rest, name);
    ClosingMatch(rest, name);
    AfterSkips("\"", rest, KeyPattern(name));
  }

  lemma HitKey(name: string, rest: string)
    ensures After(Quoted(name, ":" + rest), KeyPattern(name)) == Some(rest)
  {
    assert Quoted(name, ":" + rest) == KeyPattern(name) + rest;
    AfterHere(KeyPattern(name), rest);
  }

  // A name that is the text between two keys, of which the second begins with a
  // colon, is found at the first key's closing quote.
  lemma HitBetween(k: string, name: string, next: string)
    requires Lacks(k, '"') && Lacks(name, '"') && k != name
    ensures After(Quoted(k, name + ("\"" + (":" + next))), KeyPattern(name)) == Some(next)
  {
    ToClosing(k, name + ("\"" + (":" + next)), name);
    assert "\"" + (name + ("\"" + (":" + next))) == KeyPattern(name) + next;
    AfterHere(KeyPattern(name), next);
  }

  lemma PassPlain(pre: string, rest: string, name: string)
    requires Lacks(pre, '"')
    ensures After(pre + rest, KeyPattern(name)) == After(rest, KeyPattern(name))
  {
    AfterSkipsPlain(pre, rest, KeyPattern(name));
  }

  predicate StartsWithColon(s: string) {
    s != "" && s[0] == ':'
  }

  // A collision is decided at the next quote.
  lemma CollidesAtQuote(raw: string, next: string, name: string)
    requires Lacks(raw, '"') && Lacks(name, '"')
    ensures Collides(raw + ("\"" + next), name) <==> name == raw && StartsWithColon(next)
  {
    if Collides(raw + ("\"" + next), name) {
      NameIsRaw(raw, next, name);
    }
    if name == raw && StartsWithColon(next) {
      RawCollides(raw, next);
    }
  }

  lemma RawCollides(raw: string, next: string)
    requires StartsWithColon(next)
    ensures Collides(raw + ("\"" + next), raw)
  {
    var rest, end := raw + ("\"" + next), raw + "\":";
    assert next[..1] == ":";
    assert rest[..|end|] == end;
  }

  lemma NameIsRaw(raw: string, next: string, name: string)
    requires Lacks(raw, '"') && Lacks(name, '"') && Collides(raw + ("\"" + next), name)
    ensures name == raw && StartsWithColon(next)
  {
    var rest, end := raw + ("\"" + next), name + "\":";
    assert forall i :: 0 <= i < |end| ==> rest[i] == end[i];
    assert rest[|name|] == '"' && rest[|raw|] == '"';
    assert forall i :: 0 <= i < |raw| ==> rest[i] == raw[i];
    assert forall i :: 0 <= i < |name| ==> end[i] == name[i];
    assert |name| == |raw|;
    assert rest[|raw| + 1] == next[0] && end[|name| + 1] == ':';
  }

  lemma NoQuoteNoCollision(rest: string, name: string)
    requires Lacks(rest, '"')
    ensures !Collides(rest, name)
  {
    var end := name + "\":";
    assert end[|name|] == '"';
    assert |end| <= |rest| ==> rest[..|end|][|name|] == rest[|name|];
  }

  // ---- The metrics of one crate --------------------------------------------

  lemma DecimalLacks(n: nat, c: char)
    requires !IsDigit(c)
    ensures Lacks(Decimal(n), c)
  {
    DecimalRoundTrip(n);
  }

  predicate PlainKeys(kvs: seq<Kv>) {
    forall i :: 0 <= i < |kvs| ==> Lacks(kvs[i].key, '"') && !StartsWithColon(kvs[i].key)
  }

  // The text that follows the quoted key of metric j.
  function Valued(kvs: seq<Kv>, j: nat, indent: string, tail: string): string
    requires j < |kvs|
  {
    ": " + (Decimal(kvs[j].value) + CountsThen(kvs, j + 1, indent, tail))
  }

  function LastValue(kvs: seq<Kv>): u64 {
    if kvs == [] then 0 else kvs[|kvs| - 1].value
  }

  // The text that follows the last quoted key.
  function LastValued(kvs: seq<Kv>, tail: string): string {
    ": " + (Decimal(LastValue(kvs)) + tail)
  }

  lemma QuotedStart(key: string, rest: string)
    requires !StartsWithColon(key)
    ensures !StartsWithColon(key + ("\"" + rest))
  {
  }

  // Between two metrics no name can be found.
  lemma NoCollisionInside(kvs: seq<Kv>, j: nat, indent: string, tail: string, name: string)
    requires j + 1 < |kvs| && PlainKeys(kvs) && Lacks(indent, '"') && Lacks(name, '"')
    ensures !Collides(Valued(kvs, j, indent, tail), name)
  {
    var digits, key, after := Decimal(kvs[j].value), kvs[j + 1].key, Valued(kvs, j + 1, indent, tail);
    var raw := ": " + (digits + ("," + ("\n" + indent)));
    DecimalLacks(kvs[j].value, '"');
    assert Valued(kvs, j, indent, tail) == raw + ("\"" + (key + ("\"" + after)));
    QuotedStart(key, after);
    CollidesAtQuote(raw, key + ("\"" + after), name);
  }

  lemma NoCollisionBefore(kvs: seq<Kv>, raw: string, indent: string, tail: string, name: string)
    requires kvs != [] && PlainKeys(kvs) && Lacks(indent, '"') && Lacks(raw, '"') && Lacks(name, '"')
    ensures !Collides(raw + CountsThen(kvs, 0, indent, tail), name)
  {
    var key, after := kvs[0].key, Valued(kvs, 0, indent, tail);
    var pre := raw + ("\n" + indent);
    assert raw + CountsThen(kvs, 0, indent, tail) == pre + ("\"" + (key + ("\"" + after)));
    QuotedStart(key, after);
    CollidesAtQuote(pre, key + ("\"" + after), name);
  }

  lemma ReachKey(kvs: seq<Kv>, j: nat, indent: string, tail: string, name: string)
    requires j < |kvs| && Lacks(indent, '"')
    ensures After(CountsThen(kvs, j, indent, tail), KeyPattern(name))
         == After(Quoted(kvs[j].key, Valued(kvs, j, indent, tail)), KeyPattern(name))
  {
    var sep, here := if j > 0 then "," else "", Quoted(kvs[j].key, Valued(kvs, j, indent, tail));
    PassPlain(sep, "\n" + (indent + here), name);
    PassPlain("\n", indent + here, name);
    PassPlain(indent, here, name);
  }

  // Pass metric j, which is not the one looked for.
  lemma PassCount(kvs: seq<Kv>, j: nat, indent: string, tail: string, name: string)
    requires j < |kvs| && PlainKeys(kvs) && Lacks(indent, '"') && Lacks(name, '"') && kvs[j].key != name
    requires j + 1 == |kvs| ==> !Collides(LastValued(kvs, tail), name)
    ensures After(CountsThen(kvs, j, indent, tail), KeyPattern(name))
         == After(CountsThen(kvs, j + 1, indent, tail), KeyPattern(name))
  {
    var digits, rest := Decimal(kvs[j].value), CountsThen(kvs, j + 1, indent, tail);
    ReachKey(kvs, j, indent, tail, name);
    if j + 1 < |kvs| {
      NoCollisionInside(kvs, j, indent, tail, name);
    }
    PassKey(kvs[j].key, ": " + (digits + rest), name);
    PassPlain(": ", digits + rest, name);
    DecimalLacks(kvs[j].value, '"');
    PassPlain(digits, rest, name);
  }

  // A name that is no metric key among those from j to k is not found there.
  lemma {:induction false} PassCounts(kvs: seq<Kv>, j: nat, k: nat, indent: string, tail: string, name: string)
    requires j <= k <= |kvs| && PlainKeys(kvs) && Lacks(indent, '"') && Lacks(name, '"')
    requires forall i :: j <= i < k ==> kvs[i].key != name
    requires j < k == |kvs| ==> !Collides(LastValued(kvs, tail), name)
    ensures After(CountsThen(kvs, j, indent, tail), KeyPattern(name))
         == After(CountsThen(kvs, k, indent, tail), KeyPattern(name))
    decreases k - j
  {
    if j < k {
      PassCount(kvs, j, indent, tail, name);
      PassCounts(kvs, j + 1, k, indent, tail, name);
    }
  }

  // ---- The list of crates --------------------------------------------------

  function CrateRest(row: CrateCounts -> seq<Kv>, m: seq<Entry>, i: nat, tail: string): string
    requires i < |m|
  {
    CountsThen(row(m[i].counts), 0, "      ", "\n    }" + CratesThen(row, m, i + 1, tail))
  }

  predicate NoKey(kvs: seq<Kv>, name: string) {
    forall i :: 0 <= i < |kvs| ==> kvs[i].key != name
  }

  predicate PlainRow(kvs: seq<Kv>) {
    kvs != [] && PlainKeys(kvs)
  }

  predicate PlainRows(row: CrateCounts -> seq<Kv>, m: seq<Entry>) {
    forall i :: 0 <= i < |m| ==> Lacks(m[i].name, '"') && PlainRow(row(m[i].counts))
  }

  lemma ReachCrate(row: CrateCounts -> seq<Kv>, m: seq<Entry>, i: nat, tail: string, name: string)
    requires i < |m|
    ensures After(CratesThen(row, m, i, tail), KeyPattern(name))
         == After(Quoted(m[i].name, ": {" + CrateRest(row, m, i, tail)), KeyPattern(name))
  {
    var here := Quoted(m[i].name, ": {" + CrateRest(row, m, i, tail));
    PassPlain(if i > 0 then "," else "", "\n    " + here, name);
    PassPlain("\n    ", here, name);
  }

  lemma EnterCrate(row: CrateCounts -> seq<Kv>, m: seq<Entry>, i: nat, tail: string, name: string)
    requires i < |m| && PlainRow(row(m[i].counts)) && Lacks(m[i].name, '"') && Lacks(name, '"') && m[i].name != name
    ensures After(CratesThen(row, m, i, tail), KeyPattern(name)) == After(CrateRest(row, m, i, tail), KeyPattern(name))
  {
    ReachCrate(row, m, i, tail, name);
    NoCollisionBefore(row(m[i].counts), ": {", "      ", "\n    }" + CratesThen(row, m, i + 1, tail), name);
    PassKey(m[i].name, ": {" + CrateRest(row, m, i, tail), name);
    PassPlain(": {", CrateRest(row, m, i, tail), name);
  }

  // What follows the last key before crate i, or before the totals.
  function BeforeCrate(row: CrateCounts -> seq<Kv>, m: seq<Entry>, i: nat, tail: string): string
    requires i <= |m|
  {
    if i == 0 then ": {" + CratesThen(row, m, 0, tail)
    else LastValued(row(m[i - 1].counts), "\n    }" + CratesThen(row, m, i, tail))
  }

  lemma PassCrate(row: CrateCounts -> seq<Kv>, m: seq<Entry>, i: nat, tail: string, name: string)
    requires i < |m| && PlainRow(row(m[i].counts)) && Lacks(m[i].name, '"') && Lacks(name, '"')
    requires m[i].name != name && NoKey(row(m[i].counts), name) && !Collides(BeforeCrate(row, m, i + 1, tail), name)
    ensures After(CratesThen(row, m, i, tail), KeyPattern(name)) == After(CratesThen(row, m, i + 1, tail), KeyPattern(name))
  {
    EnterCrate(row, m, i, tail, name);
    PassRow(row(m[i].counts), CratesThen(row, m, i + 1, tail), name);
  }

  lemma PassRow(kvs: seq<Kv>, rest: string, name: string)
    requires PlainRow(kvs) && NoKey(kvs, name) && Lacks(name, '"') && !Collides(LastValued(kvs, "\n    }" + rest), name)
    ensures After(CountsThen(kvs, 0, "      ", "\n    }" + rest), KeyPattern(name)) == After(rest, KeyPattern(name))
  {
    PassCounts(kvs, 0, |kvs|, "      ", "\n    }" + rest, name);
    PassPlain("\n    }", rest, name);
  }

  lemma {:induction false} PassCrates(row: CrateCounts -> seq<Kv>, m: seq<Entry>, i: nat, k: nat, tail: string, name: string)
    requires i <= k <= |m| && PlainRows(row, m) && Lacks(name, '"')
    requires forall x :: i <= x < k ==> m[x].name != name && NoKey(row(m[x].counts), name)
    requires forall x :: i < x <= k ==> !Collides(BeforeCrate(row, m, x, tail), name)
    ensures After(CratesThen(row, m, i, tail), KeyPattern(name)) == After(CratesThen(row, m, k, tail), KeyPattern(name))
    decreases k - i
  {
    if i < k {
      PassCrate(row, m, i, tail, name);
      PassCrates(row, m, i + 1, k, tail, name);
    }
  }

  lemma HitCrate(row: CrateCounts -> seq<Kv>, m: seq<Entry>, i: nat, tail: string)
    requires i < |m|
    ensures After(CratesThen(row, m, i, tail), KeyPattern(m[i].name)) == Some(" {" + CrateRest(row, m, i, tail))
  {
    ReachCrate(row, m, i, tail, m[i].name);
    assert ": {" + CrateRest(row, m, i, tail) == ":" + (" {" + CrateRest(row, m, i, tail));
    HitKey(m[i].name, " {" + CrateRest(row, m, i, tail));
  }

  // ---- Collisions before a crate -------------------------------------------

  // The text between the last key before crate i and that crate's opening quote.
  function Between(row: CrateCounts -> seq<Kv>, m: seq<Entry>, i: nat): string
    requires i < |m|
  {
    if i == 0 then ": {\n    " else ": " + (Decimal(LastValue(row(m[i - 1].counts))) + "\n    },\n    ")
  }

  // The name, its closing quote, and the rest of crate i's header.
  function NameOn(row: CrateCounts -> seq<Kv>, m: seq<Entry>, i: nat, tail: string): string
    requires i < |m|
  {
    m[i].name + ("\"" + (": {" + CrateRest(row, m, i, tail)))
  }

  lemma RegroupValue(colon: string, digits: string, close: string, list: string, whole: string, here: string)
    requires close + list == whole + here
    ensures colon + (digits + (close + list)) == (colon + (digits + whole)) + here
  {
  }

  lemma ListOpens(list: string, here: string)
    requires list == "," + ("\n    " + here)
    ensures "\n    }" + list == "\n    },\n    " + here
  {
    assert "\n    }" + "," + "\n    " == "\n    },\n    ";
  }

  lemma BetweenFirst(row: CrateCounts -> seq<Kv>, m: seq<Entry>, tail: string)
    requires m != []
    ensures BeforeCrate(row, m, 0, tail) == Between(row, m, 0) + ("\"" + NameOn(row, m, 0, tail))
  {
    var here := "\"" + NameOn(row, m, 0, tail);
    assert CratesThen(row, m, 0, tail) == "" + ("\n    " + here);
    assert ": {" + "\n    " == Between(row, m, 0);
    Regroup(": {", "\n    ", here);
    assert "" + ("\n    " + here) == "\n    " + here;
  }

  lemma BetweenOthers(row: CrateCounts -> seq<Kv>, m: seq<Entry>, i: nat, tail: string)
    requires 0 < i < |m|
    ensures BeforeCrate(row, m, i, tail) == Between(row, m, i) + ("\"" + NameOn(row, m, i, tail))
  {
    var last, here := row(m[i - 1].counts), "\"" + NameOn(row, m, i, tail);
    var list := CratesThen(row, m, i, tail);
    ListOpens(list, here);
    RegroupValue(": ", Decimal(LastValue(last)), "\n    }", list, "\n    },\n    ", here);
  }

  lemma ValueLine(digits: string)
    requires Lacks(digits, '"')
    ensures var between := ": " + (digits + "\n    },\n    ");
            Lacks(between, '"') && StartsWithColon(between) && '}' in between
  {
    var close := "\n    },\n    ";
    assert close[5] == '}';
    assert (": " + (digits + close))[2 + |digits| + 5] == close[5];
  }

  lemma BeforeIsBetween(row: CrateCounts -> seq<Kv>, m: seq<Entry>, i: nat, tail: string)
    requires i < |m|
    ensures BeforeCrate(row, m, i, tail) == Between(row, m, i) + ("\"" + NameOn(row, m, i, tail))
  {
    if i == 0 {
      BetweenFirst(row, m, tail);
    } else {
      BetweenOthers(row, m, i, tail);
    }
  }

  lemma BetweenShape(row: CrateCounts -> seq<Kv>, m: seq<Entry>, i: nat)
    requires i < |m|
    ensures Lacks(Between(row, m, i), '"') && StartsWithColon(Between(row, m, i))
    ensures '{' in Between(row, m, i) || '}' in Between(row, m, i)
  {
    if i == 0 {
      assert Between(row, m, 0)[2] == '{';
    } else {
      var last := row(m[i - 1].counts);
      DecimalLacks(LastValue(last), '"');
      ValueLine(Decimal(LastValue(last)));
    }
  }

  // A crate's name is taken for the pattern of another exactly when it begins
  // with a colon and the other is the text before it.
  predicate CollidesAt(row: CrateCounts -> seq<Kv>, m: seq<Entry>, i: nat, name: string)
    requires i < |m|
  {
    name == Between(row, m, i) && StartsWithColon(m[i].name)
  }

  lemma CollisionAtCrate(row: CrateCounts -> seq<Kv>, m: seq<Entry>, i: nat, tail: string, name: string)
    requires i < |m| && Lacks(name, '"')
    ensures Collides(BeforeCrate(row, m, i, tail), name) <==> CollidesAt(row, m, i, name)
  {
    BeforeIsBetween(row, m, i, tail);
    BetweenShape(row, m, i);
    CollidesAtQuote(Between(row, m, i), NameOn(row, m, i, tail), name);
    NameStart(m[i].name, ": {" + CrateRest(row, m, i, tail));
  }

  lemma NameStart(name: string, rest: string)
    ensures StartsWithColon(name + ("\"" + rest)) <==> StartsWithColon(name)
  {
  }

  lemma NoCollisionBeforeWord(raw: string, word: string, rest: string, name: string)
    requires Lacks(raw, '"') && Lacks(name, '"') && !StartsWithColon(word)
    ensures !Collides(raw + Quoted(word, rest), name)
  {
    QuotedStart(word, rest);
    CollidesAtQuote(raw, word + ("\"" + rest), name);
  }

  lemma NoCollisionAtTotals(row: CrateCounts -> seq<Kv>, m: seq<Entry>, kvs: seq<Kv>, close: string, name: string)
    requires Lacks(name, '"')
    ensures !Collides(BeforeCrate(row, m, |m|, TotalsThen(kvs, close)), name)
  {
    var rest := ": {" + CountsThen(kvs, 0, "    ", close);
    var word, open := Quoted("total", rest), "\n  },\n  ";
    if m == [] {
      Regroup(": {", open, word);
      NoCollisionBeforeWord(": {" + open, "total", rest, name);
    } else {
      var last := row(m[|m| - 1].counts);
      var digits := Decimal(LastValue(last));
      DecimalLacks(LastValue(last), '"');
      RegroupTotals(": ", digits, "\n    }", open, word);
      NoCollisionBeforeWord(": " + (digits + ("\n    }" + open)), "total", rest, name);
    }
  }

  lemma RegroupTotals(colon: string, digits: string, close: string, open: string, here: string)
    ensures colon + (digits + (close + (open + here))) == (colon + (digits + (close + open))) + here
  {
  }

  // ---- From the top --------------------------------------------------------

  const CLOSE: string := "\n  }\n}\n"

  function Tail(row: CrateCounts -> seq<Kv>, total: CrateCounts): string {
    TotalsThen(row(total), CLOSE)
  }

  lemma ReachCrates(row: CrateCounts -> seq<Kv>, m: seq<Entry>, total: CrateCounts, name: string)
    requires Lacks(name, '"') && name != "crates" && !Collides(BeforeCrate(row, m, 0, Tail(row, total)), name)
    ensures After(JsonOf(row, m, total), KeyPattern(name)) == After(CratesThen(row, m, 0, Tail(row, total)), KeyPattern(name))
  {
    var list := CratesThen(row, m, 0, Tail(row, total));
    PassPlain("{\n  ", Quoted("crates", ": {" + list), name);
    PassKey("crates", ": {" + list, name);
    PassPlain(": {", list, name);
  }

  lemma CratesFound(row: CrateCounts -> seq<Kv>, m: seq<Entry>, total: CrateCounts)
    ensures After(JsonOf(row, m, total), KeyPattern("crates")) == Some(" {" + CratesThen(row, m, 0, Tail(row, total)))
  {
    var list := CratesThen(row, m, 0, Tail(row, total));
    PassPlain("{\n  ", Quoted("crates", ": {" + list), "crates");
    assert ": {" + list == ":" + (" {" + list);
    HitKey("crates", " {" + list);
  }

  predicate Undisturbed(row: CrateCounts -> seq<Kv>, m: seq<Entry>, k: nat, name: string)
    requires k <= |m|
  {
    forall x :: 0 <= x < k ==> !CollidesAt(row, m, x, name)
  }

  // A name is looked for in vain up to crate k if no earlier crate or metric has
  // it and it is not the text before a crate that begins with a colon.
  lemma ReachEntry(row: CrateCounts -> seq<Kv>, m: seq<Entry>, total: CrateCounts, k: nat, name: string)
    requires k <= |m| && PlainRows(row, m) && Lacks(name, '"') && name != "crates"
    requires forall x :: 0 <= x < k ==> m[x].name != name && NoKey(row(m[x].counts), name)
    requires Undisturbed(row, m, if k < |m| then k + 1 else k, name)
    ensures After(JsonOf(row, m, total), KeyPattern(name)) == After(CratesThen(row, m, k, Tail(row, total)), KeyPattern(name))
  {
    forall x | 0 <= x <= k ensures !Collides(BeforeCrate(row, m, x, Tail(row, total)), name) {
      if x < |m| {
        CollisionAtCrate(row, m, x, Tail(row, total), name);
      } else {
        NoCollisionAtTotals(row, m, row(total), CLOSE, name);
      }
    }
    ReachCrates(row, m, total, name);
    PassCrates(row, m, 0, k, Tail(row, total), name);
  }
}
