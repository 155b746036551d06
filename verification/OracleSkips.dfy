/** The contract oracle's printed transcript, and the filter that reads the skipped checks back from it. */
module OracleSkips {
  import opened Text
  import opened Wrappers

  // ---------------------------------------------------------------- lines

  /** A character `str.splitlines` ends a line at. */
  predicate Break(c: char) {
    var n := c as int;
    0x0a <= n <= 0x0d || 0x1c <= n <= 0x1e || n == 0x85 || n == 0x2028 || n == 0x2029
  }

  predicate SingleLine(s: string) {
    forall i :: 0 <= i < |s| ==> !Break(s[i])
  }

  /** `splitlines`, with the line begun so far; a carriage return and a newline end one line together. */
  function SplitFrom(line: string, s: string): seq<string>
    decreases |s|
  {
    if s == "" then (if line == "" then [] else [line])
    else if !Break(s[0]) then SplitFrom(line + [s[0]], s[1..])
    else if |s| > 1 && s[0] == '\r' && s[1] == '\n' then [line] + SplitFrom("", s[2..])
    else [line] + SplitFrom("", s[1..])
  }

  function SplitLines(s: string): seq<string> {
    SplitFrom("", s)
  }

  /** What `print` writes, call after call. */
  function Written(lines: seq<string>): string {
    if lines == [] then "" else lines[0] + "\n" + Written(lines[1..])
  }

  lemma {:induction false} SplitOne(begun: string, line: string, rest: string)
    requires SingleLine(line)
    ensures SplitFrom(begun, line + "\n" + rest) == [begun + line] + SplitFrom("", rest)
    decreases |line|
  {
    var s := line + "\n" + rest;
    if line == "" {
      assert s == "\n" + rest && s[1..] == rest && begun + "" == begun;
    } else {
      assert s[0] == line[0] && s[1..] == line[1..] + "\n" + rest;
      SplitOne(begun + [line[0]], line[1..], rest);
      assert begun + [line[0]] + line[1..] == begun + line;
    }
  }

  /** The characters that end a line, and a carriage return takes a newline with it. */
  lemma {:induction false} SplitAtBreak(begun: string, line: string, c: char, rest: string)
    requires SingleLine(line)
    ensures Break(c) <==> c as int in {10, 11, 12, 13, 28, 29, 30, 133, 8232, 8233}
    ensures Break(c) ==>
              SplitFrom(begun, line + [c] + rest)
              == [begun + line] + SplitFrom("", if c == '\r' && rest != "" && rest[0] == '\n' then rest[1..] else rest)
    ensures SplitFrom(begun, line) == if begun + line == "" then [] else [begun + line]
    decreases |line|
  {
    var s := line + [c] + rest;
    if line == "" {
      assert s == [c] + rest && s[1..] == rest && begun + "" == begun;
      assert rest != "" ==> s[2..] == rest[1..];
    } else {
      assert s[0] == line[0] && s[1..] == line[1..] + [c] + rest;
      SplitAtBreak(begun + [line[0]], line[1..], c, rest);
      assert begun + [line[0]] + line[1..] == begun + line;
    }
  }

  /** Reading the transcript back line by line gives the lines that were printed. */
  lemma {:induction false} LinesRoundTrip(lines: seq<string>)
    requires forall i :: 0 <= i < |lines| ==> SingleLine(lines[i])
    ensures SplitLines(Written(lines)) == lines
  {
    if lines != [] {
      SplitOne("", lines[0], Written(lines[1..]));
      LinesRoundTrip(lines[1..]);
      assert "" + lines[0] == lines[0];
    }
  }

  // ---------------------------------------------------------------- the printer

  datatype Event = Check(passed: bool, message: string) | Skip(message: string) | Row(name: string, value: string) | Note(text: string)

  function Padded(name: string, width: nat): string
    decreases width - |name|
  {
    if |name| >= width then name else Padded(name + " ", width)
  }

  function Line(e: Event): string {
    match e
    case Check(passed, message) => (if passed then "  ok   " else "  FAIL ") + message
    case Skip(message) => "  SKIP " + message
    case Row(name, value) => "  " + (Padded(name, 34) + (" " + value))
    case Note(text) => text
  }

  function Failed(events: seq<Event>): seq<string> {
    if events == [] then []
    else
      var n := |events| - 1;
      Failed(events[..n]) + if events[n].Check? && !events[n].passed then [events[n].message] else []
  }

  function Skipped(events: seq<Event>): seq<string> {
    if events == [] then []
    else
      var n := |events| - 1;
      Skipped(events[..n]) + if events[n].Skip? then [events[n].message] else []
  }

  function Rows(events: seq<Event>): seq<(string, string)> {
    if events == [] then []
    else
      var n := |events| - 1;
      Rows(events[..n]) + if events[n].Row? then [(events[n].name, events[n].value)] else []
  }

  function TableLines(rows: seq<(string, string)>): seq<string> {
    if rows == [] then []
    else
      var n := |rows| - 1;
      TableLines(rows[..n]) + ["  " + (Padded(rows[n].0, 36) + (" " + rows[n].1))]
  }

  function Lines(events: seq<Event>): seq<string> {
    if events == [] then []
    else
      var n := |events| - 1;
      Lines(events[..n]) + [Line(events[n])]
  }

  function FailLines(messages: seq<string>): seq<string> {
    if messages == [] then []
    else
      var n := |messages| - 1;
      FailLines(messages[..n]) + ["  FAIL " + messages[n]]
  }

  function SummaryLine(failures: nat, skips: nat): string {
    "failures:" + (" " + (Digits(failures) + ("  skips:" + (" " + Digits(skips)))))
  }

  /** What `main` prints: the calls as they come, the table again, the counts, the failures again. */
  function Transcript(events: seq<Event>): seq<string> {
    Lines(events) + (["", "=== reference table (executed) ==="] + TableLines(Rows(events)))
    + (["", SummaryLine(|Failed(events)|, |Skipped(events)|)] + FailLines(Failed(events)))
  }

  /** The oracle's three global lists, and everything it has printed. */
  class Oracle {
    var fails: seq<string>
    var skips: seq<string>
    var table: seq<(string, string)>
    var printed: seq<string>
    ghost var events: seq<Event>

    ghost predicate Valid()
      reads this
    {
      && fails == Failed(events) && skips == Skipped(events) && printed == Lines(events)
      && table == Rows(events)
    }

    constructor ()
      ensures Valid() && events == []
    {
      fails, skips, table, printed, events := [], [], [], [], [];
    }

    method Check(cond: bool, message: string) returns (r: bool)
      requires Valid()
      modifies this
      ensures Valid() && r == cond && events == old(events) + [Event.Check(cond, message)]
    {
      hide Failed, Skipped, Rows, Lines;
      OneMore(events, Event.Check(cond, message));
      printed := printed + [(if cond then "  ok   " else "  FAIL ") + message];
      if !cond {
        fails := fails + [message];
      }
      events := events + [Event.Check(cond, message)];
      r := cond;
    }

    method Skip(message: string)
      requires Valid()
      modifies this
      ensures Valid() && events == old(events) + [Event.Skip(message)]
    {
      hide Failed, Skipped, Rows, Lines;
      OneMore(events, Event.Skip(message));
      printed := printed + ["  SKIP " + message];
      skips := skips + [message];
      events := events + [Event.Skip(message)];
    }

    method Row(name: string, value: string)
      requires Valid()
      modifies this
      ensures Valid() && events == old(events) + [Event.Row(name, value)]
    {
      hide Failed, Skipped, Rows, Lines, Padded;
      OneMore(events, Event.Row(name, value));
      table := table + [(name, value)];
      printed := printed + ["  " + (Padded(name, 34) + (" " + value))];
      events := events + [Event.Row(name, value)];
    }

    method Note(text: string)
      requires Valid()
      modifies this
      ensures Valid() && events == old(events) + [Event.Note(text)]
    {
      hide Failed, Skipped, Rows, Lines;
      OneMore(events, Event.Note(text));
      printed := printed + [text];
      events := events + [Event.Note(text)];
    }

    /** The end of `main`. */
    method Finish() returns (status: int)
      requires Valid()
      modifies this`printed
      ensures printed == Transcript(events)
      ensures status == if Failed(events) == [] then 0 else 1
    {
      hide Failed, Skipped, Rows, Lines, Padded, SummaryLine, TableLines, FailLines;
      printed := printed + ["", "=== reference table (executed) ==="];
      PrintTable();
      printed := printed + ["", SummaryLine(|fails|, |skips|)];
      PrintFailures();
      status := if fails != [] then 1 else 0;
    }

    method PrintTable()
      modifies this`printed
      ensures printed == old(printed) + TableLines(table)
    {
      hide Padded;
      for i := 0 to |table|
        invariant printed == old(printed) + TableLines(table[..i])
      {
        assert table[..i + 1][..i] == table[..i];
        printed := printed + ["  " + (Padded(table[i].0, 36) + (" " + table[i].1))];
      }
      assert table[..|table|] == table;
    }

    method PrintFailures()
      modifies this`printed
      ensures printed == old(printed) + FailLines(fails)
    {
      for i := 0 to |fails|
        invariant printed == old(printed) + FailLines(fails[..i])
      {
        assert fails[..i + 1][..i] == fails[..i];
        printed := printed + ["  FAIL " + fails[i]];
      }
      assert fails[..|fails|] == fails;
    }
  }

  lemma {:induction false} OneMore(events: seq<Event>, e: Event)
    ensures Failed(events + [e]) == Failed(events) + if e.Check? && !e.passed then [e.message] else []
    ensures Skipped(events + [e]) == Skipped(events) + if e.Skip? then [e.message] else []
    ensures Rows(events + [e]) == Rows(events) + if e.Row? then [(e.name, e.value)] else []
    ensures Lines(events + [e]) == Lines(events) + [Line(e)]
  {
    assert (events + [e])[..|events|] == events;
  }

  /** A name is followed by as many spaces as it takes to fill the column. */
  lemma {:induction false} PaddedMeans(name: string, width: nat)
    ensures name <= Padded(name, width) && |Padded(name, width)| == if |name| >= width then |name| else width
    ensures forall i :: |name| <= i < |Padded(name, width)| ==> Padded(name, width)[i] == ' '
    decreases width - |name|
  {
    if |name| < width {
      PaddedMeans(name + " ", width);
      assert name <= name + " ";
    }
  }

  /** A short run, printed: a check that passes, one that fails, a skip and a row. */
  lemma {:induction false} SampleTranscript(value: string)
    ensures Transcript([Check(true, "a"), Check(false, "b"), Skip("c"), Row("d", value)])
         == ["  ok   a", "  FAIL b", "  SKIP c", "  " + (Padded("d", 34) + (" " + value)),
             "", "=== reference table (executed) ===", "  " + (Padded("d", 36) + (" " + value)),
             "", "failures: 1  skips: 1", "  FAIL b"]
  {
    var one: seq<Event> := [Check(true, "a")];
    var two, three := one + [Check(false, "b")], one + [Check(false, "b")] + [Skip("c")];
    var all := three + [Row("d", value)];
    assert [] + one == one && all == [Check(true, "a"), Check(false, "b"), Skip("c"), Row("d", value)];
    hide Padded, Failed, Skipped, Rows, Lines, TableLines, FailLines, SummaryLine;
    NothingYet();
    OneMore([], Check(true, "a"));
    OneMore(one, Check(false, "b"));
    OneMore(two, Skip("c"));
    OneMore(three, Row("d", value));
    OneLine("b", ("d", value));
    assert Failed(all) == ["b"] && Skipped(all) == ["c"] && Rows(all) == [("d", value)];
    var row := "  " + (Padded("d", 34) + (" " + value));
    assert Lines(all) == [Line(all[0]), Line(all[1]), Line(all[2]), Line(all[3])];
    assert Line(all[0]) == "  ok   a" && Line(all[1]) == "  FAIL b" && Line(all[2]) == "  SKIP c" && Line(all[3]) == row;
  }

  lemma NothingYet()
    ensures Failed([]) == [] && Skipped([]) == [] && Rows([]) == [] && Lines([]) == []
  {
  }

  lemma OneLine(message: string, row: (string, string))
    ensures FailLines([message]) == ["  FAIL " + message]
    ensures TableLines([row]) == ["  " + (Padded(row.0, 36) + (" " + row.1))]
    ensures SummaryLine(1, 1) == "failures: 1  skips: 1"
  {
    assert [message][..0] == [] && [row][..0] == [];
    assert Digits(1) == "1";
  }

  // ---------------------------------------------------------------- the filter

  predicate StartsWith(s: string, prefix: string) {
    |prefix| <= |s| && s[..|prefix|] == prefix
  }

  predicate Contains(s: string, part: string) {
    exists i :: 0 <= i <= |s| && StartsWith(s[i..], part)
  }

  /** A text contains another exactly when it is that text with something before it and something behind. */
  lemma {:induction false} ContainsMeans(s: string, part: string)
    ensures Contains(s, part) <==> exists before, after :: s == before + part + after
  {
    if Contains(s, part) {
      var i :| 0 <= i <= |s| && StartsWith(s[i..], part);
      var after := s[i..][|part|..];
      assert s == s[..i] + s[i..] && s[i..] == part + after;
      assert s == s[..i] + part + after;
    }
    if before, after :| s == before + part + after {
      assert s[|before|..] == part + after;
      assert StartsWith(s[|before|..], part);
    }
  }

  const SKIP_PREFIX := "SKIP "

  const KNOWN_SKIPS := ["sha256 download-verify evidence not re-run", "header-parse pins not re-run"]

  /** A line that is a skip, stripped; none for any other line. */
  function SkipOf(line: string): Option<string> {
    if StartsWith(Strip(line), SKIP_PREFIX) then Some(Strip(line)) else None
  }

  function SkipLines(lines: seq<string>): seq<string> {
    if lines == [] then []
    else
      var n := |lines| - 1;
      SkipLines(lines[..n]) + if SkipOf(lines[n]).Some? then [SkipOf(lines[n]).value] else []
  }

  predicate Allowed(line: string) {
    exists k :: 0 <= k < |KNOWN_SKIPS| && Contains(line, KNOWN_SKIPS[k])
  }

  /** Two skips are allowed by name. */
  lemma AllowedMeans(line: string)
    ensures Allowed(line) <==>
            Contains(line, "sha256 download-verify evidence not re-run") || Contains(line, "header-parse pins not re-run")
  {
    hide Contains;
    assert KNOWN_SKIPS[0] == "sha256 download-verify evidence not re-run" && KNOWN_SKIPS[1] == "header-parse pins not re-run";
  }

  function Only(lines: seq<string>, allowed: bool): seq<string> {
    if lines == [] then []
    else
      var n := |lines| - 1;
      Only(lines[..n], allowed) + if Allowed(lines[n]) == allowed then [lines[n]] else []
  }

  datatype Counts = Counts(failures: nat, skips: nat)

  /** How many decimal digits the text begins with. */
  function Leading(s: string): (n: nat)
    ensures n <= |s| && AllDigits(s[..n])
    ensures n < |s| ==> !IsDigit(s[n])
  {
    if s != "" && IsDigit(s[0]) then
      var n := 1 + Leading(s[1..]);
      assert s[..n] == [s[0]] + s[1..][..n - 1];
      n
    else 0
  }

  /** The summary pattern, matched against a stripped line. */
  function SummaryOf(line: string): Option<Counts> {
    if !StartsWith(line, "failures:") then None
    else
      var first := LStrip(line[9..]);
      var a := Leading(first);
      if a == 0 || a == |first| || !Space(first[a]) then None
      else
        var word := LStrip(first[a..]);
        if !StartsWith(word, "skips:") then None
        else
          var second := LStrip(word[6..]);
          var b := Leading(second);
          if b == 0 || !Blank(second[b..]) then None
          else Some(Counts(Value(first[..a]), Value(second[..b])))
  }

  /** The last line that is a summary. */
  function LastSummary(lines: seq<string>): Option<Counts> {
    if lines == [] then None
    else
      var n := |lines| - 1;
      var counts := SummaryOf(Strip(lines[n]));
      if counts.Some? then counts else LastSummary(lines[..n])
  }

  datatype Report = Report(known: seq<string>, unknown: seq<string>, summary: Option<Counts>) {
    predicate SummaryDisagrees() {
      summary.Some? && summary.value.skips != |known| + |unknown|
    }
  }

  datatype Problem = NoSummary | Unexplained(line: string) | Disagreement

  function ProblemsOf(r: Report): seq<Problem> {
    (if r.summary.None? then [NoSummary] else [])
    + seq(|r.unknown|, i requires 0 <= i < |r.unknown| => Unexplained(r.unknown[i]))
    + if r.SummaryDisagrees() then [Disagreement] else []
  }

  function ReportOf(lines: seq<string>): Report {
    Report(Only(SkipLines(lines), true), Only(SkipLines(lines), false), LastSummary(lines))
  }

  /** `classify`: the first allowance that covers the line. */
  method Classify(line: string) returns (covered: bool)
    ensures covered <==> Allowed(line)
  {
    for k := 0 to |KNOWN_SKIPS|
      invariant forall j :: 0 <= j < k ==> !Contains(line, KNOWN_SKIPS[j])
    {
      if Contains(line, KNOWN_SKIPS[k]) {
        return true;
      }
    }
    return false;
  }

  /** `examine`: the skips sorted, the summary looked for from the end. */
  method Examine(text: string) returns (r: Report)
    ensures r == ReportOf(SplitLines(text))
  {
    hide Allowed, SummaryOf, SkipOf, SplitLines, Strip;
    var lines := SplitLines(text);
    var skips := SkipLines(lines);
    var known, unknown := [], [];
    for i := 0 to |skips|
      invariant known == Only(skips[..i], true) && unknown == Only(skips[..i], false)
    {
      assert skips[..i + 1][..i] == skips[..i];
      var covered := Classify(skips[i]);
      if covered {
        known := known + [skips[i]];
      } else {
        unknown := unknown + [skips[i]];
      }
    }
    assert skips[..|skips|] == skips;
    var summary: Option<Counts>, i := None, |lines|;
    assert lines[..|lines|] == lines;
    while i > 0
      invariant 0 <= i <= |lines|
      invariant LastSummary(lines) == LastSummary(lines[..i])
    {
      i := i - 1;
      assert lines[..i + 1][..i] == lines[..i];
      summary := SummaryOf(Strip(lines[i]));
      if summary.Some? {
        return Report(known, unknown, summary);
      }
    }
    return Report(known, unknown, None);
  }

  // ---------------------------------------------------------------- how lines strip

  lemma {:induction false} LStripSpaces(x: string)
    ensures LStrip("  " + x) == LStrip(x)
  {
    assert ("  " + x)[1..] == " " + x && (" " + x)[1..] == x;
    assert LStrip(" " + x) == LStrip(x);
  }

  lemma LStripFirm(x: string)
    requires x != "" && !Space(x[0])
    ensures LStrip(x) == x
  {
  }

  lemma {:induction false} LStripKeeps(x: string, y: string)
    requires !Blank(x)
    ensures LStrip(x + y) == LStrip(x) + y && LStrip(x) != ""
  {
    assert x + y != "" && (x + y)[0] == x[0];
    if Space(x[0]) {
      assert (x + y)[1..] == x[1..] + y;
      assert x == [x[0]] + x[1..];
      LStripKeeps(x[1..], y);
    }
  }

  lemma {:induction false} RStripKeeps(x: string, y: string)
    ensures !Blank(y) ==> RStrip(x + y) == x + RStrip(y) && RStrip(y) != ""
    ensures Blank(y) ==> RStrip(x + y) == RStrip(x)
  {
    if y == "" {
      assert x + y == x;
    } else {
      var init, last := y[..|y| - 1], y[|y| - 1];
      assert y == init + [last];
      assert (x + y)[..|x + y| - 1] == x + init && (x + y)[|x + y| - 1] == last;
      if Space(last) {
        RStripKeeps(x, init);
        assert Blank(y) <==> Blank(init);
      }
    }
  }

  /** A stripped text begins with what it begins with before. */
  lemma {:induction false} RStripStarts(x: string, prefix: string)
    ensures StartsWith(RStrip(x), prefix) ==> StartsWith(x, prefix)
  {
    RStripSplits(x);
  }

  /** A skip with something to say is read back, its message trimmed; one with a blank message is lost. */
  lemma {:induction false} SkipIsRead(message: string)
    ensures SkipOf("  SKIP " + message) == if Blank(message) then None else Some("SKIP " + RStrip(message))
  {
    var rest := "SKIP " + message;
    assert "  SKIP " + message == "  " + rest;
    LStripSpaces(rest);
    LStripFirm(rest);
    RStripKeeps("SKIP ", message);
    if Blank(message) {
      assert RStrip("SKIP ") == "SKIP" by {
        assert "SKIP "[..4] == "SKIP";
      }
    } else {
      assert ("SKIP " + RStrip(message))[..5] == "SKIP ";
    }
  }

  /** An indented line that begins otherwise is neither a skip nor the summary. */
  lemma {:induction false} FirstDecides(rest: string)
    requires rest != "" && !Space(rest[0])
    ensures rest[0] != 'S' ==> SkipOf("  " + rest).None?
    ensures rest[0] != 'f' ==> SummaryOf(Strip("  " + rest)).None?
  {
    LStripSpaces(rest);
    LStripFirm(rest);
    RStripStarts(rest, SKIP_PREFIX);
    RStripStarts(rest, "failures:");
    OtherStart(rest, SKIP_PREFIX);
    OtherStart(rest, "failures:");
    hide LStrip, RStrip, StartsWith;
  }

  lemma OtherStart(s: string, prefix: string)
    requires s != "" && prefix != ""
    ensures s[0] != prefix[0] ==> !StartsWith(s, prefix)
  {
  }

  lemma {:induction false} CheckIsNoSkip(passed: bool, message: string)
    ensures SkipOf(Line(Check(passed, message))).None?
    ensures SummaryOf(Strip("  FAIL " + message)).None?
  {
    var rest, fail := (if passed then "ok   " else "FAIL ") + message, "FAIL " + message;
    assert Line(Check(passed, message)) == "  " + rest && rest[0] in {'o', 'F'};
    assert "  FAIL " + message == "  " + fail && fail[0] == 'F';
    assert !Space('o') && !Space('F');
    hide SkipOf, SummaryOf, Strip, Line, Space;
    FirstDecides(rest);
    FirstDecides(fail);
  }

  /** A row name that cannot be taken for a skip. */
  predicate RowName(name: string) {
    !Blank(name) && !StartsWith(LStrip(name) + " ", SKIP_PREFIX)
  }

  lemma {:induction false} PaddedName(name: string, width: nat) returns (pad: string)
    ensures Padded(name, width) == name + pad && forall i :: 0 <= i < |pad| ==> pad[i] == ' '
    decreases width - |name|
  {
    if |name| >= width {
      pad := "";
      assert name + "" == name;
    } else {
      var rest := PaddedName(name + " ", width);
      pad := " " + rest;
      assert name + " " + rest == name + (" " + rest);
    }
  }

  lemma {:induction false} RowIsNoSkip(name: string, value: string, width: nat)
    requires RowName(name)
    ensures SkipOf("  " + (Padded(name, width) + (" " + value))).None?
  {
    var pad := PaddedName(name, width);
    var y := pad + (" " + value);
    assert y[0] == ' ';
    assert name + pad + (" " + value) == name + y;
    LStripSpaces(name + y);
    LStripKeeps(name, y);
    var z, head := LStrip(name) + y, LStrip(name);
    RStripStarts(z, SKIP_PREFIX);
    hide RStrip, LStrip;
    if StartsWith(z, SKIP_PREFIX) {
      FirstFive(head, y);
      assert false;
    }
  }

  lemma {:induction false} FirstFive(head: string, y: string)
    requires head != "" && y != "" && y[0] == ' ' && StartsWith(head + y, SKIP_PREFIX)
    ensures StartsWith(head + " ", SKIP_PREFIX)
  {
    var z, w := head + y, head + " ";
    assert forall i :: 0 <= i < |w| ==> z[i] == w[i];
    assert z[0] == 'S' && z[1] == 'K' && z[2] == 'I' && z[3] == 'P' && z[4] == ' ' by {
      assert z[..5] == SKIP_PREFIX;
      assert z[..5][0] == 'S' && z[..5][1] == 'K' && z[..5][2] == 'I' && z[..5][3] == 'P' && z[..5][4] == ' ';
    }
    assert |head| >= 4;
    assert w[..5] == SKIP_PREFIX;
  }

  // ---------------------------------------------------------------- the summary

  lemma {:induction false} LeadingDigits(ds: string, rest: string)
    requires AllDigits(ds) && (rest == "" || !IsDigit(rest[0]))
    ensures Leading(ds + rest) == |ds|
  {
    if ds == "" {
      assert ds + rest == rest;
    } else {
      assert (ds + rest)[1..] == ds[1..] + rest;
      LeadingDigits(ds[1..], rest);
    }
  }

  lemma FirmDigits(n: nat)
    ensures AllDigits(Digits(n)) && Value(Digits(n)) == n && !Space(Digits(n)[0]) && !Space(Digits(n)[|Digits(n)| - 1])
  {
    DigitsRoundTrip(n);
  }

  /** The filter reads the counts the oracle prints. */
  lemma {:induction false} SummaryIsRead(failures: nat, skips: nat)
    ensures SummaryOf(Strip(SummaryLine(failures, skips))) == Some(Counts(failures, skips))
    ensures SkipOf(SummaryLine(failures, skips)).None?
  {
    SummaryFirm(failures, skips);
    SummaryParsed(failures, skips);
    hide Strip, SummaryLine, SummaryOf;
    assert !StartsWith(SummaryLine(failures, skips), SKIP_PREFIX);
  }

  lemma {:induction false} SummaryFirm(failures: nat, skips: nat)
    ensures Strip(SummaryLine(failures, skips)) == SummaryLine(failures, skips)
    ensures |SummaryLine(failures, skips)| > 0 && SummaryLine(failures, skips)[0] == 'f'
  {
    var line, d := SummaryLine(failures, skips), Digits(skips);
    FirmDigits(skips);
    assert line[0] == 'f' && line[|line| - 1] == d[|d| - 1];
    LStripFirm(line);
    hide SummaryLine, Digits;
  }

  lemma {:induction false} SummaryParsed(failures: nat, skips: nat)
    ensures SummaryOf(SummaryLine(failures, skips)) == Some(Counts(failures, skips))
  {
    var line, d, e := SummaryLine(failures, skips), Digits(failures), Digits(skips);
    var tail := "  skips:" + (" " + e);
    FirstCount(line, failures, tail);
    SecondCount(skips);
    hide Digits, Leading, Value, LStrip, SummaryLine;
  }

  lemma {:induction false} FirstCount(line: string, n: nat, tail: string)
    requires line == "failures:" + (" " + (Digits(n) + tail)) && tail != "" && tail[0] == ' '
    ensures StartsWith(line, "failures:")
    ensures var first := LStrip(line[9..]);
            var a := Leading(first);
            0 < a < |first| && Space(first[a]) && Value(first[..a]) == n && first[a..] == tail
  {
    var d := Digits(n);
    FirmDigits(n);
    hide Digits, Value;
    assert line[..9] == "failures:" && line[9..] == " " + (d + tail);
    OneSpace(d + tail);
    LeadingDigits(d, tail);
    assert (d + tail)[..|d|] == d && (d + tail)[|d|..] == tail;
  }

  lemma {:induction false} SecondCount(n: nat)
    ensures var rest := LStrip("  skips:" + (" " + Digits(n)));
            && StartsWith(rest, "skips:")
            && var second := LStrip(rest[6..]);
               var b := Leading(second);
               b > 0 && Blank(second[b..]) && Value(second[..b]) == n
  {
    var e := Digits(n);
    FirmDigits(n);
    hide Digits, Value;
    var rest := "skips:" + (" " + e);
    assert "  skips:" + (" " + e) == "  " + rest;
    LStripSpaces(rest);
    LStripFirm(rest);
    assert rest[..6] == "skips:" && rest[6..] == " " + e;
    OneSpace(e);
    LeadingDigits(e, "");
    assert e + "" == e && e[..|e|] == e && e[|e|..] == "";
  }

  lemma {:induction false} OneSpace(x: string)
    requires x != "" && !Space(x[0])
    ensures LStrip(" " + x) == x
  {
    assert (" " + x)[1..] == x;
  }

  // ---------------------------------------------------------------- the transcript as a whole

  /** Calls whose texts stay on one line and whose row names cannot be taken for a skip. */
  predicate Quiet(e: Event) {
    match e
    case Check(_, message) => SingleLine(message)
    case Skip(message) => SingleLine(message)
    case Row(name, value) => SingleLine(name) && SingleLine(value) && RowName(name)
    case Note(text) => SingleLine(text) && SkipOf(text).None?
  }

  predicate AllQuiet(events: seq<Event>) {
    forall i :: 0 <= i < |events| ==> Quiet(events[i])
  }

  /** The skips a filter can find. */
  function Found(events: seq<Event>): seq<string> {
    if events == [] then []
    else
      var n := |events| - 1;
      Found(events[..n])
      + if events[n].Skip? && !Blank(events[n].message) then ["SKIP " + RStrip(events[n].message)] else []
  }

  lemma {:induction false} SkipLinesJoin(a: seq<string>, b: seq<string>)
    ensures SkipLines(a + b) == SkipLines(a) + SkipLines(b)
  {
    hide SkipOf;
    if b == [] {
      assert a + b == a;
    } else {
      var n := |b| - 1;
      SkipLinesJoin(a, b[..n]);
      assert (a + b)[..|a| + n] == a + b[..n];
    }
  }

  lemma {:induction false} LineIsRead(e: Event)
    requires Quiet(e)
    ensures SkipOf(Line(e)) == if e.Skip? && !Blank(e.message) then Some("SKIP " + RStrip(e.message)) else None
  {
    hide SkipOf, RStrip, Blank;
    match e
    case Check(passed, message) => CheckIsNoSkip(passed, message);
    case Skip(message) => SkipIsRead(message);
    case Row(name, value) => RowIsNoSkip(name, value, 34);
    case Note(_) =>
  }

  lemma {:induction false} FoundInLines(events: seq<Event>)
    requires AllQuiet(events)
    ensures SkipLines(Lines(events)) == Found(events)
  {
    hide SkipOf, Line, Quiet, RStrip, Blank;
    if events != [] {
      var n := |events| - 1;
      FoundInLines(events[..n]);
      LineIsRead(events[n]);
      LinesLength(events[..n]);
      var before, line := Lines(events[..n]), Line(events[n]);
      assert (before + [line])[..n] == before;
      assert SkipLines(before + [line]) == SkipLines(before) + if SkipOf(line).Some? then [SkipOf(line).value] else [];
    }
  }

  lemma {:induction false} LinesLength(events: seq<Event>)
    ensures |Lines(events)| == |events|
  {
    if events != [] {
      LinesLength(events[..|events| - 1]);
    }
  }

  lemma {:induction false} NoneInTable(events: seq<Event>)
    requires AllQuiet(events)
    ensures SkipLines(TableLines(Rows(events))) == []
  {
    hide SkipOf, Padded;
    if events != [] {
      var n := |events| - 1;
      NoneInTable(events[..n]);
      assert Quiet(events[n]);
      hide Quiet;
      if events[n].Row? {
        var rows, last := Rows(events[..n]), (events[n].name, events[n].value);
        RowIsNoSkip(last.0, last.1, 36);
        assert Rows(events)[..|rows|] == rows;
        var line := "  " + (Padded(last.0, 36) + (" " + last.1));
        assert TableLines(Rows(events)) == TableLines(rows) + [line];
        SkipLinesJoin(TableLines(rows), [line]);
        NoSkip(line);
      } else {
        assert Rows(events) == Rows(events[..n]);
      }
    }
  }

  lemma NoSkip(line: string)
    requires SkipOf(line).None?
    ensures SkipLines([line]) == []
  {
    hide SkipOf;
    assert [line][..0] == [];
  }

  lemma {:induction false} NoneInFails(messages: seq<string>)
    ensures SkipLines(FailLines(messages)) == []
    ensures forall i :: 0 <= i < |FailLines(messages)| ==> SummaryOf(Strip(FailLines(messages)[i])).None?
  {
    hide SkipOf, SummaryOf, Strip;
    if messages != [] {
      var n := |messages| - 1;
      NoneInFails(messages[..n]);
      CheckIsNoSkip(false, messages[n]);
      var line := "  FAIL " + messages[n];
      SkipLinesJoin(FailLines(messages[..n]), [line]);
      NoSkip(line);
    }
  }

  /** Later lines that are no summary do not hide an earlier one. */
  lemma {:induction false} SummaryBefore(lines: seq<string>, later: seq<string>)
    requires forall i :: 0 <= i < |later| ==> SummaryOf(Strip(later[i])).None?
    ensures LastSummary(lines + later) == LastSummary(lines)
  {
    hide SummaryOf, Strip;
    if later == [] {
      assert lines + later == lines;
    } else {
      var n := |later| - 1;
      assert (lines + later)[..|lines| + n] == lines + later[..n];
      SummaryBefore(lines, later[..n]);
    }
  }

  /** The skips of a transcript are those of the calls. */
  lemma {:induction false} SkipsAreRead(events: seq<Event>)
    requires AllQuiet(events)
    ensures SkipLines(Transcript(events)) == Found(events)
  {
    hide SkipOf, SummaryLine, Quiet, RStrip, Found, SkipLines, Lines, TableLines, FailLines, Rows, Failed, Skipped;
    var a, b := Lines(events), ["", "=== reference table (executed) ==="];
    var t, f := TableLines(Rows(events)), FailLines(Failed(events));
    var summary := SummaryLine(|Failed(events)|, |Skipped(events)|);
    var c := ["", summary];
    FixedLines();
    SummaryIsRead(|Failed(events)|, |Skipped(events)|);
    TwoLines("", "=== reference table (executed) ===");
    TwoLines("", summary);
    FoundInLines(events);
    NoneInTable(events);
    NoneInFails(Failed(events));
    SkipLinesJoin(a + (b + t), c + f);
    SkipLinesJoin(a, b + t);
    SkipLinesJoin(b, t);
    SkipLinesJoin(c, f);
    assert Transcript(events) == a + (b + t) + (c + f);
  }

  /** The summary the filter finds is the oracle's own: only failures are printed after it. */
  lemma {:induction false} CountsAreRead(events: seq<Event>)
    ensures LastSummary(Transcript(events)) == Some(Counts(|Failed(events)|, |Skipped(events)|))
  {
    hide SkipOf, SummaryOf, Strip, SummaryLine, Lines, TableLines, FailLines, Rows, Failed, Skipped;
    var summary, f := SummaryLine(|Failed(events)|, |Skipped(events)|), FailLines(Failed(events));
    var before := Lines(events) + (["", "=== reference table (executed) ==="] + TableLines(Rows(events))) + [""];
    var upto := before + [summary];
    SummaryIsRead(|Failed(events)|, |Skipped(events)|);
    NoneInFails(Failed(events));
    SummaryBefore(upto, f);
    assert Transcript(events) == upto + f;
    assert upto[|upto| - 1] == summary;
  }

  lemma TwoLines(x: string, y: string)
    requires SkipOf(x).None? && SkipOf(y).None?
    ensures SkipLines([x, y]) == []
  {
    NoSkip(x);
    NoSkip(y);
    hide SkipOf;
    SkipLinesJoin([x], [y]);
    assert [x] + [y] == [x, y];
  }

  lemma FixedLines()
    ensures SkipOf("").None? && SkipOf("=== reference table (executed) ===").None?
  {
    assert Strip("") == "";
    var line := "=== reference table (executed) ===";
    LStripFirm(line);
    RStripStarts(line, SKIP_PREFIX);
    assert line[0] == '=';
  }

  // ---------------------------------------------------------------- agreement

  lemma {:induction false} TranscriptSingle(events: seq<Event>)
    requires AllQuiet(events)
    ensures forall i :: 0 <= i < |Transcript(events)| ==> SingleLine(Transcript(events)[i])
  {
    LinesSingle(events);
    TableSingle(events);
    FailsSingle(events);
    SummarySingle(|Failed(events)|, |Skipped(events)|);
    assert SingleLine("") && SingleLine("=== reference table (executed) ===");
    hide Quiet, SummaryLine, TableLines, FailLines, Lines, SingleLine;
  }

  lemma {:induction false} LinesSingle(events: seq<Event>)
    requires AllQuiet(events)
    ensures forall i :: 0 <= i < |Lines(events)| ==> SingleLine(Lines(events)[i])
  {
    hide RowName, SkipOf;
    if events != [] {
      var n := |events| - 1;
      LinesSingle(events[..n]);
      var e := events[n];
      assert Quiet(e);
      if e.Row? {
        RowSingle(e.name, e.value, 34);
      }
    }
  }

  lemma {:induction false} RowSingle(name: string, value: string, width: nat)
    requires SingleLine(name) && SingleLine(value)
    ensures SingleLine("  " + (Padded(name, width) + (" " + value)))
  {
    var pad := PaddedName(name, width);
  }

  lemma {:induction false} TableSingle(events: seq<Event>)
    requires AllQuiet(events)
    ensures forall i :: 0 <= i < |TableLines(Rows(events))| ==> SingleLine(TableLines(Rows(events))[i])
  {
    hide SkipOf, RowName, SingleLine, Padded;
    if events != [] {
      var n := |events| - 1;
      TableSingle(events[..n]);
      assert Quiet(events[n]);
      if events[n].Row? {
        RowSingle(events[n].name, events[n].value, 36);
        assert Rows(events)[..|Rows(events)| - 1] == Rows(events[..n]);
      } else {
        assert Rows(events) == Rows(events[..n]);
      }
    }
  }

  lemma {:induction false} FailsSingle(events: seq<Event>)
    requires AllQuiet(events)
    ensures forall i :: 0 <= i < |FailLines(Failed(events))| ==> SingleLine(FailLines(Failed(events))[i])
  {
    hide SkipOf, RowName;
    if events != [] {
      var n := |events| - 1;
      FailsSingle(events[..n]);
      assert Quiet(events[n]);
      if events[n].Check? && !events[n].passed {
        assert Failed(events)[..|Failed(events)| - 1] == Failed(events[..n]);
      } else {
        assert Failed(events) == Failed(events[..n]);
      }
    }
  }

  lemma SummarySingle(failures: nat, skips: nat)
    ensures SingleLine(SummaryLine(failures, skips))
  {
    FirmDigits(failures);
    FirmDigits(skips);
    hide Digits;
  }

  lemma {:induction false} OnlySplits(lines: seq<string>)
    ensures |Only(lines, true)| + |Only(lines, false)| == |lines|
    ensures Only(lines, false) == [] <==> forall i :: 0 <= i < |lines| ==> Allowed(lines[i])
  {
    hide Allowed;
    if lines != [] {
      OnlySplits(lines[..|lines| - 1]);
    }
  }

  lemma {:induction false} FoundCounts(events: seq<Event>)
    ensures |Found(events)| <= |Skipped(events)|
    ensures |Found(events)| == |Skipped(events)| <==>
            forall i :: 0 <= i < |events| && events[i].Skip? ==> !Blank(events[i].message)
  {
    hide Blank, RStrip;
    if events != [] {
      FoundCounts(events[..|events| - 1]);
    }
  }

  predicate AllAllowed(lines: seq<string>) {
    forall i :: 0 <= i < |lines| ==> Allowed(lines[i])
  }

  predicate Explained(e: Event) {
    e.Skip? && !Blank(e.message) ==> Allowed("SKIP " + RStrip(e.message))
  }

  ghost predicate AllExplained(events: seq<Event>) {
    forall i :: 0 <= i < |events| ==> Explained(events[i])
  }

  lemma {:induction false} FoundAllowed(events: seq<Event>)
    ensures AllAllowed(Found(events)) <==> AllExplained(events)
  {
    hide Allowed, Blank, RStrip, AllAllowed, AllExplained;
    if events == [] {
      NothingToExplain();
    } else {
      var n := |events| - 1;
      FoundAllowed(events[..n]);
      ExplainedOneMore(events);
      if events[n].Skip? && !Blank(events[n].message) {
        AllowedOneMore(Found(events[..n]), "SKIP " + RStrip(events[n].message));
      } else {
        assert Found(events) == Found(events[..n]);
      }
    }
  }

  lemma NothingToExplain()
    ensures AllAllowed([]) && AllExplained([])
  {
  }

  lemma {:induction false} ExplainedOneMore(events: seq<Event>)
    requires events != []
    ensures AllExplained(events) <==> AllExplained(events[..|events| - 1]) && Explained(events[|events| - 1])
  {
    hide Explained;
    var init := events[..|events| - 1];
    assert events == init + [events[|events| - 1]];
  }

  lemma AllowedOneMore(lines: seq<string>, line: string)
    ensures AllAllowed(lines + [line]) <==> AllAllowed(lines) && Allowed(line)
  {
    hide Allowed;
    assert (lines + [line])[|lines|] == line;
    assert forall i :: 0 <= i < |lines| ==> (lines + [line])[i] == lines[i];
  }

  /** The filter and the oracle agree on every run: the skips it finds are the skips that say something, its counts are
      the oracle's, and it has nothing to object to exactly when every skip says something it allows. */
  lemma {:induction false} FilterAgrees(events: seq<Event>)
    requires AllQuiet(events)
    ensures var r := ReportOf(SplitLines(Written(Transcript(events))));
            && r.summary == Some(Counts(|Failed(events)|, |Skipped(events)|))
            && |r.known| + |r.unknown| == |Found(events)|
            && (r.SummaryDisagrees() <==> exists i :: 0 <= i < |events| && events[i].Skip? && Blank(events[i].message))
            && (ProblemsOf(r) == [] <==>
                forall i :: 0 <= i < |events| && events[i].Skip? ==>
                  !Blank(events[i].message) && Allowed("SKIP " + RStrip(events[i].message)))
  {
    TranscriptSingle(events);
    LinesRoundTrip(Transcript(events));
    SkipsAreRead(events);
    CountsAreRead(events);
    OnlySplits(Found(events));
    FoundCounts(events);
    FoundAllowed(events);
    hide Transcript, SplitLines, Written, Quiet, Allowed, Blank, RStrip, SkipLines, LastSummary, Only, Found, Failed, Skipped, SingleLine;
  }

  /** One blank skip is enough for the filter to call a sound run a capture that disagrees with itself. */
  lemma {:induction false} BlankSkipDisagrees(message: string)
    requires SingleLine(message) && Blank(message)
    ensures ReportOf(SplitLines(Written(Transcript([Event.Skip(message)])))).SummaryDisagrees()
  {
    var events := [Event.Skip(message)];
    assert events[0].Skip? && Blank(events[0].message);
    FilterAgrees(events);
    hide *;
  }
}
