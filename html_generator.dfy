/**
  The HTML report generator: `_escape_html`, and the pieces `generate_report` computes before
  it pastes them into its fixed page template (the bug table rows, the path list items, the
  escaped program name and repair status, and the suggested-code block).
*/
module HtmlGenerator {
  import opened Wrappers
  import opened Strings
  import opened Numbers
  import opened Records

  // ---------------------------------------------------------------------------
  // _escape_html
  // ---------------------------------------------------------------------------

  /** The five replacements, in the dictionary's (insertion) order: "&" comes first. */
  const Keys: seq<char> := ['&', '<', '>', '"', '\'']
  const Entities: seq<string> := ["&amp;", "&lt;", "&gt;", "&quot;", "&#39;"]

  /** The entity one character becomes; any other character stays as it is. */
  function EscapeChar(c: char): string
  {
    match c
    case '&' => "&amp;"
    case '<' => "&lt;"
    case '>' => "&gt;"
    case '"' => "&quot;"
    case '\'' => "&#39;"
    case _ => [c]
  }

  /** A character HTML reads as markup; escaped text holds none of them. */
  predicate IsMarkup(c: char)
  {
    c == '<' || c == '>' || c == '"' || c == '\''
  }

  predicate NoMarkup(s: string)
  {
    forall i :: 0 <= i < |s| ==> !IsMarkup(s[i])
  }

  /** Escaping character by character: the specification of `_escape_html`. */
  function Escape(s: string): (r: string)
    ensures NoMarkup(r)
    ensures |r| >= |s|
  {
    if s == [] then []
    else
      var head := EscapeChar(s[0]);
      var rest := Escape(s[1..]);
      EscapeCharNoMarkup(s[0]);
      assert forall i :: |head| <= i < |head + rest| ==> (head + rest)[i] == rest[i - |head|];
      head + rest
  }

  /** Replacing one character with a text, character by character. */
  function ReplaceChar(s: string, c: char, rep: string): string
    decreases |s|
  {
    if s == [] then [] else (if s[0] == c then rep else [s[0]]) + ReplaceChar(s[1..], c, rep)
  }

  /** The text after the first `k` replacements of the loop. */
  function Stage(s: string, k: nat): string
    requires k <= |Keys|
  {
    if k == 0 then s else ReplaceChar(Stage(s, k - 1), Keys[k - 1], Entities[k - 1])
  }

  /** `_escape_html`: `value or ""`, then each replacement in turn with `str.replace`. */
  method EscapeHtml(value: Option<string>) returns (escaped: string)
    ensures escaped == Escape(value.GetOr(""))
    ensures value.None? || value == Some("") ==> escaped == ""
  {
    escaped := value.GetOr("");
    var k := 0;
    while k < |Keys|
      invariant k <= |Keys|
      invariant escaped == Stage(value.GetOr(""), k)
    {
      ReplaceAllChar(escaped, Keys[k], Entities[k]);
      escaped := ReplaceAll(escaped, [Keys[k]], Entities[k]);
      k := k + 1;
    }
    StagesEscape(value.GetOr(""));
  }

  /** `str.replace` with a one-character pattern works character by character. */
  lemma {:induction false} ReplaceAllChar(s: string, c: char, rep: string)
    ensures ReplaceAll(s, [c], rep) == ReplaceChar(s, c, rep)
    decreases |s|
  {
    if s != [] {
      assert s[..1] == [s[0]];
      ReplaceAllChar(s[1..], c, rep);
    }
  }

  /** A one-character replacement distributes over concatenation. */
  lemma {:induction false} ReplaceCharAppend(a: string, b: string, c: char, rep: string)
    ensures ReplaceChar(a + b, c, rep) == ReplaceChar(a, c, rep) + ReplaceChar(b, c, rep)
    decreases |a|
  {
    if a == [] {
      assert a + b == b;
    } else {
      assert (a + b)[0] == a[0] && (a + b)[1..] == a[1..] + b;
      ReplaceCharAppend(a[1..], b, c, rep);
    }
  }

  /** A text without the character is left alone by its replacement. */
  lemma {:induction false} ReplaceAbsentChar(s: string, c: char, rep: string)
    requires forall i :: 0 <= i < |s| ==> s[i] != c
    ensures ReplaceChar(s, c, rep) == s
    decreases |s|
  {
    if s != [] {
      assert s == [s[0]] + s[1..];
      ReplaceAbsentChar(s[1..], c, rep);
    }
  }

  /** Every stage of the loop distributes over concatenation. */
  lemma {:induction false} StageAppend(a: string, b: string, k: nat)
    requires k <= |Keys|
    ensures Stage(a + b, k) == Stage(a, k) + Stage(b, k)
  {
    if k > 0 {
      StageAppend(a, b, k - 1);
      ReplaceCharAppend(Stage(a, k - 1), Stage(b, k - 1), Keys[k - 1], Entities[k - 1]);
    }
  }

  /** No stage adds text to an empty one. */
  lemma {:induction false} StageEmpty(k: nat)
    requires k <= |Keys|
    ensures Stage([], k) == []
  {
    if k > 0 {
      StageEmpty(k - 1);
    }
  }

  /** The position of a character among the keys; `|Keys|` for any other character. */
  function KeyIndex(x: char): (j: nat)
    ensures j <= |Keys|
    ensures j < |Keys| ==> Keys[j] == x
    ensures j == |Keys| ==> EscapeChar(x) == [x]
    ensures forall i :: 0 <= i < |Keys| && Keys[i] == x ==> i == j
  {
    match x
    case '&' => 0
    case '<' => 1
    case '>' => 2
    case '"' => 3
    case '\'' => 4
    case _ => 5
  }

  /** After `k` stages a character is escaped when it is among the first `k` keys: an entity,
      once introduced, holds none of the later keys, so it is never escaped again. */
  lemma {:induction false} StageChar(x: char, k: nat)
    requires k <= |Keys|
    ensures Stage([x], k) == if KeyIndex(x) < k then EscapeChar(x) else [x]
  {
    if k > 0 {
      StageChar(x, k - 1);
      var c := Keys[k - 1];
      var e := Entities[k - 1];
      var prev := Stage([x], k - 1);
      if KeyIndex(x) < k - 1 {
        LaterKeyMarkup(k - 1);
        EscapeCharNoMarkup(x);
        ReplaceAbsentChar(prev, c, e);
      } else {
        assert [x][1..] == [];
        assert ReplaceChar([x], c, e) == (if x == c then e else [x]) + ReplaceChar([], c, e);
        assert x == c <==> KeyIndex(x) == k - 1;
        KeyEntity(k - 1);
      }
    }
  }

  /** Every key after "&" is a markup character. */
  lemma LaterKeyMarkup(j: nat)
    requires 1 <= j < |Keys|
    ensures IsMarkup(Keys[j])
  {
    if j == 1 {} else if j == 2 {} else if j == 3 {} else {}
  }

  /** No escaped character is markup. */
  lemma EscapeCharNoMarkup(x: char)
    ensures NoMarkup(EscapeChar(x))
  {
    var e := EscapeChar(x);
    forall i | 0 <= i < |e| ensures !IsMarkup(e[i]) {
      if x == '&' {} else if x == '<' {} else if x == '>' {} else if x == '"' {} else if x == '\'' {} else {}
    }
  }

  /** Each key's entity is the one `EscapeChar` gives it. */
  lemma KeyEntity(j: nat)
    requires j < |Keys|
    ensures EscapeChar(Keys[j]) == Entities[j]
  {
    if j == 0 {} else if j == 1 {} else if j == 2 {} else if j == 3 {} else {}
  }

  /** The replacement loop computes the character-by-character escape. */
  lemma {:induction false} StagesEscape(s: string)
    ensures Stage(s, |Keys|) == Escape(s)
    decreases |s|
  {
    if s == [] {
      StageEmpty(|Keys|);
    } else {
      assert s == [s[0]] + s[1..];
      StageAppend([s[0]], s[1..], |Keys|);
      StageChar(s[0], |Keys|);
      StagesEscape(s[1..]);
    }
  }

  /** Turning the five entities back into their characters. */
  function Unescape(t: string): string
    decreases |t|
  {
    if t == [] then []
    else if StartsWith(t, "&amp;") then "&" + Unescape(t[5..])
    else if StartsWith(t, "&lt;") then "<" + Unescape(t[4..])
    else if StartsWith(t, "&gt;") then ">" + Unescape(t[4..])
    else if StartsWith(t, "&quot;") then "\"" + Unescape(t[6..])
    else if StartsWith(t, "&#39;") then "'" + Unescape(t[5..])
    else [t[0]] + Unescape(t[1..])
  }

  /** A text that differs from `p` at position `i` does not start with `p`. */
  lemma NotStartsWith(t: string, p: string, i: nat)
    requires i < |p| && (i >= |t| || t[i] != p[i])
    ensures !StartsWith(t, p)
  {
    if |p| <= |t| {
      assert t[..|p|][i] == t[i];
    }
  }

  lemma UnescapeChar(x: char, rest: string)
    ensures Unescape(EscapeChar(x) + rest) == [x] + Unescape(rest)
  {
    var t := EscapeChar(x) + rest;
    if x == '&' {
      assert t[..5] == "&amp;" && t[5..] == rest;
    } else if x == '<' {
      NotStartsWith(t, "&amp;", 1);
      assert t[..4] == "&lt;" && t[4..] == rest;
    } else if x == '>' {
      NotStartsWith(t, "&amp;", 1);
      NotStartsWith(t, "&lt;", 1);
      assert t[..4] == "&gt;" && t[4..] == rest;
    } else if x == '"' {
      NotStartsWith(t, "&amp;", 1);
      NotStartsWith(t, "&lt;", 1);
      NotStartsWith(t, "&gt;", 1);
      assert t[..6] == "&quot;" && t[6..] == rest;
    } else if x == '\'' {
      NotStartsWith(t, "&amp;", 1);
      NotStartsWith(t, "&lt;", 1);
      NotStartsWith(t, "&gt;", 1);
      NotStartsWith(t, "&quot;", 1);
      assert t[..5] == "&#39;" && t[5..] == rest;
    } else {
      assert t[0] == x;
      NotStartsWith(t, "&amp;", 0);
      NotStartsWith(t, "&lt;", 0);
      NotStartsWith(t, "&gt;", 0);
      NotStartsWith(t, "&quot;", 0);
      NotStartsWith(t, "&#39;", 0);
      assert t[1..] == rest;
    }
  }

  /** Un-escaping recovers the escaped text exactly. */
  lemma {:induction false} UnescapeEscape(s: string)
    ensures Unescape(Escape(s)) == s
    decreases |s|
  {
    if s != [] {
      UnescapeChar(s[0], Escape(s[1..]));
      UnescapeEscape(s[1..]);
    }
  }

  // ---------------------------------------------------------------------------
  // generate_report: rows and defaults
  // ---------------------------------------------------------------------------

  /** `_BugSummary`: what the bug table shows of one bug. */
  datatype BugSummary = BugSummary(severity: string, message: string, line: Option<int>)

  /** A bug's summary: severity "Unknown" when absent; the message, else the type, else
      "Unknown issue". */
  function Summarize(bug: Bug): (b: BugSummary)
    ensures bug.severity.Some? ==> b.severity == bug.severity.value
    ensures bug.severity.None? ==> b.severity == "Unknown"
    ensures bug.message.Some? ==> b.message == bug.message.value
    ensures bug.message.None? && bug.kind.Some? ==> b.message == bug.kind.value
    ensures bug.message.None? && bug.kind.None? ==> b.message == "Unknown issue"
    ensures b.line == bug.line
  {
    BugSummary(bug.severity.GetOr("Unknown"), bug.message.GetOr(bug.kind.GetOr("Unknown issue")), bug.line)
  }

  /** `bug.line or 'N/A'`: a missing line and line 0 both read "N/A". */
  function LineText(line: Option<int>): string
  {
    if line.None? || line.value == 0 then "N/A" else IntToString(line.value)
  }

  /** "N/A" stands exactly for a missing line or line 0; any other line reads back as itself. */
  lemma LineTextReadsBack(line: Option<int>)
    ensures LineText(line) == "N/A" <==> line.None? || line.value == 0
    ensures line.Some? && line.value != 0 ==> ParseInt(LineText(line)) == Some(line.value)
  {
    if line.Some? && line.value != 0 {
      var s := IntToString(line.value);
      ParseIntToString(line.value);
      assert s[0] == '-' || IsDigit(s[0]) by {
        if line.value >= 0 {
          assert s == NatToString(line.value);
        }
      }
      assert s != "N/A" by { assert "N/A"[0] == 'N'; }
    }
  }

  /** The cells after the row number. */
  function BugCells(b: BugSummary): string
  {
    "</td><td>" + b.severity + "</td><td>" + b.message + "</td><td>" + LineText(b.line) + "</td></tr>"
  }

  /** The table row of the bug at 0-based position `idx`. */
  function BugRow(idx: nat, bug: Bug): string
  {
    "<tr><td>" + NumberedCells(idx, bug)
  }

  /** The row number (1-based) and the bug's cells. */
  function NumberedCells(idx: nat, bug: Bug): (r: string)
    ensures |r| > 0 && IsDigit(r[0])
  {
    NatToString(idx + 1) + BugCells(Summarize(bug))
  }

  /** An em dash written as UTF-8 and read back as Windows-1252, as the path items show it. */
  const Dash: string := "\U{00E2}\U{20AC}\U{201D}"

  /** The list item of the path at 0-based position `idx`: its id, else `idx + 1`. */
  function PathRow(idx: nat, path: PathView): string
  {
    "<li>Path " + PathLabel(idx, path)
  }

  /** The path's id, else `idx + 1`, and whether it found a bug. */
  function PathLabel(idx: nat, path: PathView): string
  {
    IntToString(path.pathId.GetOr(idx + 1)) + " " + Dash + " "
    + (if path.isBuggy == Some(true) then "Buggy" else "Clean") + "</li>"
  }

  /** `"".join(row(idx, x) for idx, x in enumerate(xs))`, with `idx` starting at `first`. */
  function Rows<T>(xs: seq<T>, first: nat, row: (nat, T) -> string): string
    decreases |xs|
  {
    if xs == [] then "" else row(first, xs[0]) + Rows(xs[1..], first + 1, row)
  }

  /** Joining the rows of two lists one after the other numbers the second from where the
      first stopped. */
  lemma {:induction false} RowsAppend<T>(a: seq<T>, b: seq<T>, first: nat, row: (nat, T) -> string)
    ensures Rows(a + b, first, row) == Rows(a, first, row) + Rows(b, first + |a|, row)
    decreases |a|
  {
    if a == [] {
      assert a + b == b;
    } else {
      assert (a + b)[0] == a[0] && (a + b)[1..] == a[1..] + b;
      RowsAppend(a[1..], b, first + 1, row);
    }
  }

  /** The joined rows are the rows of each element in order, numbered by position. */
  lemma RowsSplit<T>(xs: seq<T>, first: nat, row: (nat, T) -> string, i: nat)
    requires i < |xs|
    ensures Rows(xs, first, row) == Rows(xs[..i], first, row) + row(first + i, xs[i]) + Rows(xs[i + 1..], first + i + 1, row)
  {
    assert xs == xs[..i] + xs[i..];
    RowsAppend(xs[..i], xs[i..], first, row);
    assert xs[i..][0] == xs[i] && xs[i..][1..] == xs[i + 1..];
  }

  const NoBugsRow := "<tr><td colspan='4'>No bugs reported</td></tr>"
  const NoPathsRow := "<li>No execution paths recorded</li>"

  /** The joined rows begin with the first element's row. */
  lemma RowsFirst<T>(xs: seq<T>, first: nat, row: (nat, T) -> string, i: nat)
    requires xs != [] && i < |row(first, xs[0])|
    ensures i < |Rows(xs, first, row)| && Rows(xs, first, row)[i] == row(first, xs[0])[i]
  {
  }

  /** A bug row has the row number's first digit at position 8. */
  lemma BugRowDigit(idx: nat, bug: Bug)
    ensures |BugRow(idx, bug)| > 8 && IsDigit(BugRow(idx, bug)[8])
  {
    assert ("<tr><td>" + NumberedCells(idx, bug))[8] == NumberedCells(idx, bug)[0];
  }

  /** Bug rows have a digit where the "No bugs reported" row has a "c" (position 8). */
  lemma BugRowsNotNoBugs(bugs: seq<Bug>)
    requires bugs != []
    ensures |Rows(bugs, 0, BugRow)| > 8 && IsDigit(Rows(bugs, 0, BugRow)[8])
  {
    BugRowDigit(0, bugs[0]);
    RowsFirst(bugs, 0, BugRow, 8);
  }

  lemma NoBugsRowAt8()
    ensures |NoBugsRow| > 8 && NoBugsRow[8] == 'c'
  {
  }

  /** The bug rows, or the single "No bugs reported" row when there are none. */
  function BugRows(bugs: seq<Bug>): (r: string)
    ensures r == NoBugsRow <==> bugs == []
  {
    var rows := Rows(bugs, 0, BugRow);
    if bugs != [] then
      BugRowsNotNoBugs(bugs);
      NoBugsRowAt8();
      rows
    else NoBugsRow
  }

  /** A path item begins "<li>P". */
  lemma PathRowStart(idx: nat, path: PathView)
    ensures |PathRow(idx, path)| > 4 && PathRow(idx, path)[4] == 'P'
  {
    assert ("<li>Path " + PathLabel(idx, path))[4] == 'P';
  }

  /** Path items have "<li>P" where "No execution paths recorded" has "<li>N". */
  lemma PathRowsNotNoPaths(paths: seq<PathView>)
    requires paths != []
    ensures Rows(paths, 0, PathRow) != "" && Rows(paths, 0, PathRow) != NoPathsRow
  {
    var r := Rows(paths, 0, PathRow);
    PathRowStart(0, paths[0]);
    RowsFirst(paths, 0, PathRow, 4);
    assert r[4] != NoPathsRow[4];
  }

  /** The path items, or "No execution paths recorded" when there are none. */
  function PathRows(paths: seq<PathView>): (r: string)
    ensures r == NoPathsRow <==> paths == []
  {
    var rows := Rows(paths, 0, PathRow);
    if paths != [] then PathRowsNotNoPaths(paths); rows
    else NoPathsRow
  }

  /** The values `generate_report` fills into its page template. */
  datatype ReportView = ReportView(
    programName: string,
    totalPaths: nat,
    coverage: real,
    executionTime: real,
    bugRows: string,
    pathRows: string,
    repairStatus: string,
    codeBlock: string)

  const EmptyBody := ResultBody(None, None, None, None, None, None)

  /** What stands in place of the code block when there is no suggested code. */
  const NoCodeBlock := "<p>No repair suggestion recorded.</p>"

  /** `generate_report`: reads the "result" key when the payload has one and the payload
      itself otherwise; without a (non-empty) repair result the status is "Not Run" and
      there is no suggested code. */
  function GenerateReport(analysis: Option<AnalysisPayload>, repair: Option<RepairPayload>): (r: ReportView)
    ensures var body := if analysis.Some? then analysis.value.result.GetOr(analysis.value.top) else EmptyBody;
            && r.totalPaths == |body.paths.GetOr([])|
            && NoMarkup(r.programName) && Unescape(r.programName) == body.programName.GetOr("N/A")
            && (r.bugRows == NoBugsRow <==> body.bugs.GetOr([]) == [])
            && (r.pathRows == NoPathsRow <==> body.paths.GetOr([]) == [])
    ensures NoMarkup(r.repairStatus)
    ensures repair.None? || !repair.value.Truthy() ==>
              Unescape(r.repairStatus) == "Not Run" && r.codeBlock == NoCodeBlock
    ensures repair.Some? && repair.value.Truthy() ==>
              Unescape(r.repairStatus) == repair.value.validationStatus.GetOr("N/A")
    ensures r.codeBlock == NoCodeBlock <==>
              repair.None? || !repair.value.Truthy() || repair.value.suggestedCode.GetOr("") == ""
  {
    var body := if analysis.Some? then analysis.value.result.GetOr(analysis.value.top) else EmptyBody;
    UnescapeEscape(body.programName.GetOr("N/A"));
    ReportView(
      Escape(body.programName.GetOr("N/A")),
      |body.paths.GetOr([])|,
      body.coveragePercentage.GetOr(0.0),
      body.executionTime.GetOr(0.0),
      BugRows(body.bugs.GetOr([])),
      PathRows(body.paths.GetOr([])),
      StatusCell(repair),
      CodeBlock(repair))
  }

  /** The escaped repair status: "Not Run" unless a repair ran, else its validation status. */
  function StatusCell(repair: Option<RepairPayload>): (r: string)
    ensures NoMarkup(r)
    ensures repair.None? || !repair.value.Truthy() ==> Unescape(r) == "Not Run"
    ensures repair.Some? && repair.value.Truthy() ==>
              Unescape(r) == repair.value.validationStatus.GetOr("N/A")
  {
    var status := if repair.Some? && repair.value.Truthy()
                  then repair.value.validationStatus.GetOr("N/A") else "Not Run";
    UnescapeEscape(status);
    Escape(status)
  }

  /** The code block: the placeholder paragraph unless a repair ran with non-empty code. */
  function CodeBlock(repair: Option<RepairPayload>): (r: string)
    ensures r == NoCodeBlock <==>
              repair.None? || !repair.value.Truthy() || repair.value.suggestedCode.GetOr("") == ""
  {
    var code := if repair.Some? && repair.value.Truthy() then repair.value.suggestedCode.GetOr("") else "";
    assert ("<pre><code>" + Escape(code) + "</code></pre>")[2] != NoCodeBlock[2];
    if code != "" then "<pre><code>" + Escape(code) + "</code></pre>" else NoCodeBlock
  }

  /** A suggested code is shown escaped inside `<pre><code>`, and the escaped text reads
      back as the code. */
  lemma ReportShowsCode(analysis: Option<AnalysisPayload>, repair: Option<RepairPayload>)
    requires repair.Some? && repair.value.Truthy() && repair.value.suggestedCode.GetOr("") != ""
    ensures var block := GenerateReport(analysis, repair).codeBlock;
            exists e :: block == "<pre><code>" + e + "</code></pre>"
                        && NoMarkup(e) && Unescape(e) == repair.value.suggestedCode.value
  {
    var code := repair.value.suggestedCode.value;
    UnescapeEscape(code);
    assert GenerateReport(analysis, repair).codeBlock == "<pre><code>" + Escape(code) + "</code></pre>";
  }
}
