/**
  `CoverageAnalyzer.calculate_coverage`: the set of covered source lines is taken from
  KLEE's `run.istats`, else from its `info` file, else from a "first four lines"
  heuristic, and reported in ascending order with its share of the source's lines.
  The file system is a map from path to the file's lines; a path outside the map does
  not exist.
*/
module CoverageAnalyzer {
  import opened Wrappers
  import opened Strings
  import opened Numbers
  import opened FilePaths
  import opened Records

  /** `_resolve_output_dir`: a relative output directory is taken under the workspace. */
  function ResolveOutputDir(workspace: string, dir: string): (r: string)
    ensures IsAbsolute(dir) ==> r == dir
    ensures !IsAbsolute(dir) ==> StartsWith(r, workspace) && EndsWith(r, dir)
  {
    if IsAbsolute(dir) then dir else Join(workspace, dir)
  }

  /** `_resolve_source_file`: the given path if it exists, else the file of the same name in
      the workspace if that exists, else the given path. */
  function ResolveSourceFile(workspace: string, source: string, files: Files): (r: string)
    ensures source in files ==> r == source
    ensures r == source || (r == Join(workspace, Name(source)) && r in files)
  {
    if source in files then source
    else
      var fallback := Join(workspace, Name(source));
      if fallback in files then fallback else source
  }

  /** `_count_total_lines`: the number of lines of an existing file, else 0. */
  function TotalLines(files: Files, path: string): (n: nat)
    ensures path !in files ==> n == 0
    ensures path in files ==> n == |files[path]|
  {
    if path in files then |files[path]| else 0
  }

  // ---------------------------------------------------------------------------
  // run.istats
  // ---------------------------------------------------------------------------

  /** The line number a `run.istats` line contributes: the digits of its first `fl=<digits>`,
      on a line that contains "fl=" and the source's name. */
  function IstatsNumber(line: string, name: string): (r: Option<nat>)
    ensures r.Some? <==> Contains(line, name) && exists i :: NumberAt(line, "fl=", i)
    ensures r.Some? ==> r == FirstNumberAfter(line, "fl=")
    ensures r.Some? ==> exists i :: NumberAt(line, "fl=", i) && r.value == RunValue(line, i + 3)
  {
    assert forall i :: NumberAt(line, "fl=", i) ==> Contains(line, "fl=") by {
      forall i | NumberAt(line, "fl=", i) {
        ContainsAt(line, "fl=", i);
      }
    }
    if Contains(line, "fl=") && Contains(line, name) then FirstNumberAfter(line, "fl=") else None
  }

  function AsSet(o: Option<nat>): set<nat>
  {
    if o.Some? then {o.value} else {}
  }

  /** The numbers `f` yields for the lines, together. */
  function Collect(lines: seq<string>, f: string -> set<nat>): set<nat>
    decreases |lines|
  {
    if lines == [] then {} else Collect(lines[..|lines| - 1], f) + f(lines[|lines| - 1])
  }

  lemma CollectStep(lines: seq<string>, f: string -> set<nat>, i: nat)
    requires i < |lines|
    ensures Collect(lines[..i + 1], f) == Collect(lines[..i], f) + f(lines[i])
  {
    assert lines[..i + 1][..i] == lines[..i];
  }

  /** A number is collected exactly when some line yields it. */
  lemma {:induction false} InCollect(lines: seq<string>, f: string -> set<nat>, n: nat)
    ensures n in Collect(lines, f) <==> exists i :: 0 <= i < |lines| && n in f(lines[i])
    decreases |lines|
  {
    if lines != [] {
      var init := lines[..|lines| - 1];
      InCollect(init, f, n);
      assert forall i :: 0 <= i < |init| ==> init[i] == lines[i];
    }
  }

  function IstatsFn(name: string): string -> set<nat>
  {
    line => AsSet(IstatsNumber(line, name))
  }

  /** The line numbers the lines of a `run.istats` file contribute. */
  function IstatsLines(lines: seq<string>, name: string): set<nat>
  {
    Collect(lines, IstatsFn(name))
  }

  /** What `run.istats` under `outDir` contributes, or nothing when it does not exist. */
  function IstatsOf(files: Files, outDir: string, name: string): set<nat>
  {
    var stats := Join(outDir, "run.istats");
    if stats in files then IstatsLines(files[stats], name) else {}
  }

  /** A number is collected from `run.istats` exactly when some line yields it. */
  lemma InIstatsLines(lines: seq<string>, name: string, n: nat)
    ensures n in IstatsLines(lines, name)
        <==> exists i :: 0 <= i < |lines| && IstatsNumber(lines[i], name) == Some(n)
  {
    InCollect(lines, IstatsFn(name), n);
    forall i | 0 <= i < |lines|
      ensures n in IstatsFn(name)(lines[i]) <==> IstatsNumber(lines[i], name) == Some(n)
    {
    }
  }

  /** The line loop of `_parse_run_istats` over the lines of `run.istats`. */
  method ReadIstats(lines: seq<string>, name: string, covered: set<nat>) returns (result: set<nat>)
    ensures result == covered + IstatsLines(lines, name)
  {
    result := covered;
    for i := 0 to |lines|
      invariant result == covered + IstatsLines(lines[..i], name)
    {
      CollectStep(lines, IstatsFn(name), i);
      if Contains(lines[i], "fl=") && Contains(lines[i], name) {
        var m := FirstNumberAfter(lines[i], "fl=");
        if m.Some? {
          result := result + {m.value};
        }
      }
    }
    assert lines[..|lines|] == lines;
  }

  /** `_parse_run_istats`: adds to `covered` the line numbers of `<outDir>/run.istats`, if it exists. */
  method ParseRunIstats(files: Files, outDir: string, sourcePath: string, covered: set<nat>)
    returns (result: set<nat>)
    ensures result == covered + IstatsOf(files, outDir, Name(sourcePath))
  {
    var stats := Join(outDir, "run.istats");
    if stats !in files {
      return covered;
    }
    result := ReadIstats(files[stats], Name(sourcePath), covered);
  }

  // ---------------------------------------------------------------------------
  // info
  // ---------------------------------------------------------------------------

  /** An `info` line is read when its lower-cased text contains "line" and it names the source. */
  predicate InfoLine(line: string, name: string)
  {
    Contains(Lower(line), "line") && Contains(line, name)
  }

  /** The numbers an `info` line contributes: every digit run of a read line whose value
      is at most `total`. */
  function InfoNumbers(line: string, name: string, total: nat): (r: set<nat>)
    ensures forall k :: k in r ==> k <= total && k in DigitRuns(line)
    ensures r != {} ==> InfoLine(line, name)
  {
    if InfoLine(line, name) then set k | k in DigitRuns(line) && k <= total else {}
  }

  function InfoFn(name: string, total: nat): string -> set<nat>
  {
    line => InfoNumbers(line, name, total)
  }

  /** The line numbers the lines of an `info` file contribute. */
  function InfoLines(lines: seq<string>, name: string, total: nat): set<nat>
  {
    Collect(lines, InfoFn(name, total))
  }

  /** What `info` under `outDir` contributes, or nothing when it does not exist. */
  function InfoOf(files: Files, outDir: string, name: string, total: nat): set<nat>
  {
    var info := Join(outDir, "info");
    if info in files then InfoLines(files[info], name, total) else {}
  }

  /** A number is collected from `info` exactly when it is a digit run, no larger than
      `total`, of some read line. */
  lemma InInfoLines(lines: seq<string>, name: string, total: nat, n: nat)
    ensures n in InfoLines(lines, name, total)
        <==> n <= total && exists i :: 0 <= i < |lines| && InfoLine(lines[i], name) && n in DigitRuns(lines[i])
  {
    InCollect(lines, InfoFn(name, total), n);
    forall i | 0 <= i < |lines|
      ensures n in InfoFn(name, total)(lines[i])
          <==> n <= total && InfoLine(lines[i], name) && n in DigitRuns(lines[i])
    {
    }
  }

  /** The line loop of `_parse_info_file` over the lines of `info`. */
  method ReadInfo(lines: seq<string>, name: string, covered: set<nat>, total: nat) returns (result: set<nat>)
    ensures result == covered + InfoLines(lines, name, total)
  {
    result := covered;
    for i := 0 to |lines|
      invariant result == covered + InfoLines(lines[..i], name, total)
    {
      CollectStep(lines, InfoFn(name, total), i);
      if Contains(Lower(lines[i]), "line") && Contains(lines[i], name) {
        var numbers := DigitRuns(lines[i]);
        result := result + set k | k in numbers && k <= total;
      }
    }
    assert lines[..|lines|] == lines;
  }

  /** `_parse_info_file`: adds to `covered` the line numbers of `<outDir>/info`, if it exists. */
  method ParseInfoFile(files: Files, outDir: string, sourcePath: string, covered: set<nat>, total: nat)
    returns (result: set<nat>)
    ensures result == covered + InfoOf(files, outDir, Name(sourcePath), total)
  {
    var info := Join(outDir, "info");
    if info !in files {
      return covered;
    }
    result := ReadInfo(files[info], Name(sourcePath), covered, total);
  }

  // ---------------------------------------------------------------------------
  // The estimate
  // ---------------------------------------------------------------------------

  /** The fallback when neither file yields a line: lines 1 to 4, or fewer in a shorter source. */
  function FirstLines(total: nat): (s: set<nat>)
    ensures forall k :: k in s <==> 1 <= k <= total && k <= 4
  {
    if total >= 4 then {1, 2, 3, 4} else if total == 3 then {1, 2, 3}
    else if total == 2 then {1, 2} else if total == 1 then {1} else {}
  }

  /** Which lines count as covered: `run.istats` wins, `info` is read only when it yields
      nothing, and the heuristic applies only when both yield nothing. */
  function Chosen(istats: set<nat>, info: set<nat>, total: nat): set<nat>
  {
    if istats != {} then istats else if info != {} then info else FirstLines(total)
  }

  /** The chosen lines come from one source only, `run.istats` first; they are empty only
      when both files yield nothing and the source has no line. */
  lemma ChosenCases(istats: set<nat>, info: set<nat>, total: nat)
    ensures var r := Chosen(istats, info, total);
            && (r == istats || r == info || r == FirstLines(total))
            && (istats != {} ==> r == istats)
            && (r == {} <==> istats == {} && info == {} && total == 0)
  {
    if istats == {} && info == {} && total > 0 {
      assert 1 in FirstLines(total);
    }
  }

  /** A set holding `x` has a least element: a smaller element, if there is one, has one. */
  lemma {:induction false} MinBelow(s: set<nat>, x: nat)
    requires x in s
    ensures exists m :: m in s && forall y :: y in s ==> m <= y
    decreases x
  {
    if !(forall y :: y in s ==> x <= y) {
      var y :| y in s && y < x;
      MinBelow(s, y);
    }
  }

  /** The least element of a non-empty set of line numbers. */
  function MinOf(s: set<nat>): (m: nat)
    requires s != {}
    ensures m in s && forall x :: x in s ==> m <= x
  {
    var x :| x in s;
    MinBelow(s, x);
    var m :| m in s && forall y :: y in s ==> m <= y;
    m
  }

  /** Putting the least element in front of the ascending rest lists the whole set in
      ascending order. */
  lemma PrependLeast(m: nat, rest: seq<nat>, s: set<nat>)
    requires m in s && forall x :: x in s ==> m <= x
    requires forall x :: x in s - {m} <==> x in rest
    requires forall i, j :: 0 <= i < j < |rest| ==> rest[i] < rest[j]
    ensures forall x :: x in s <==> x in [m] + rest
    ensures forall i, j :: 0 <= i < j < |[m] + rest| ==> ([m] + rest)[i] < ([m] + rest)[j]
  {
    var r := [m] + rest;
    forall i, j | 0 <= i < j < |r| ensures r[i] < r[j] {
      assert r[j] == rest[j - 1] && rest[j - 1] in s - {m};
      if i > 0 {
        assert r[i] == rest[i - 1];
      }
    }
  }

  /** `sorted(s)` for a set of line numbers: its elements in strictly ascending order. */
  function SortedLines(s: set<nat>): (r: seq<nat>)
    ensures |r| == |s|
    ensures forall x :: x in s <==> x in r
    ensures forall i, j :: 0 <= i < j < |r| ==> r[i] < r[j]
    decreases |s|
  {
    if s == {} then []
    else
      var m := MinOf(s);
      var rest := SortedLines(s - {m});
      PrependLeast(m, rest, s);
      [m] + rest
  }

  predicate Ascending(a: seq<int>)
  {
    forall i, j :: 0 <= i < j < |a| ==> a[i] < a[j]
  }

  /** The tail of an ascending list holds its elements other than the first. */
  lemma AscendingTail(a: seq<nat>, x: nat)
    requires Ascending(a) && |a| > 0
    ensures x in a[1..] <==> x in a && x != a[0]
    ensures x in a ==> a[0] <= x
  {
    if x in a {
      var i :| 0 <= i < |a| && a[i] == x;
      if i > 0 {
        assert a[1..][i - 1] == x;
      }
    }
    if x in a[1..] {
      var i :| 0 <= i < |a[1..]| && a[1..][i] == x;
      assert a[i + 1] == x;
    }
  }

  /** An ascending listing of a set is unique: `sorted` is the only one. */
  lemma {:induction false} AscendingUnique(a: seq<nat>, b: seq<nat>)
    requires Ascending(a) && Ascending(b)
    requires forall x :: x in a <==> x in b
    ensures a == b
    decreases |a|
  {
    assert a == [] <==> b == [] by {
      if a != [] {
        assert a[0] in a;
      }
      if b != [] {
        assert b[0] in b;
      }
    }
    if a != [] {
      AscendingTail(a, b[0]);
      AscendingTail(b, a[0]);
      forall x ensures x in a[1..] <==> x in b[1..] {
        AscendingTail(a, x);
        AscendingTail(b, x);
      }
      AscendingUnique(a[1..], b[1..]);
      assert a == [a[0]] + a[1..] && b == [b[0]] + b[1..];
    }
  }

  /** The set of a list's elements. */
  function Elements(a: seq<nat>): set<nat>
  {
    set x | x in a
  }

  /** An ascending list is the sorted listing of its own elements, and has as many
      elements as it has entries. */
  lemma SortedOfAscending(a: seq<nat>)
    requires Ascending(a)
    ensures SortedLines(Elements(a)) == a
    ensures |Elements(a)| == |a|
  {
    AscendingUnique(a, SortedLines(Elements(a)));
  }

  /** The lines `calculate_coverage` reports for a source of `total` lines, read from the
      artifacts under `outDir`. */
  function CoveredLines(files: Files, outDir: string, name: string, total: nat): set<nat>
  {
    Chosen(IstatsOf(files, outDir, name), InfoOf(files, outDir, name, total), total)
  }

  /** The reading order of `calculate_coverage`: `run.istats`, then `info` when that
      yielded nothing, then the heuristic. */
  method ReadCovered(files: Files, outDir: string, sourcePath: string, total: nat)
    returns (covered: set<nat>)
    ensures covered == CoveredLines(files, outDir, Name(sourcePath), total)
  {
    covered := ParseRunIstats(files, outDir, sourcePath, {});
    if covered == {} {
      covered := ParseInfoFile(files, outDir, sourcePath, covered, total);
    }
    if covered == {} {
      covered := FirstLines(total);
    }
  }

  /** What `calculate_coverage` reports: nothing for a missing or empty source; otherwise the
      chosen lines in ascending order and their share of the source's lines. */
  function CoverageReport(workspace: string, kleeOutDir: string, sourceFile: string, files: Files): (c: Coverage)
    ensures c.totalLines == 0 ==> c == Coverage(0.0, [], 0)
    ensures Ascending(c.linesCovered)
  {
    var source := ResolveSourceFile(workspace, sourceFile, files);
    var total := TotalLines(files, source);
    if total == 0 then Coverage(0.0, [], 0)
    else
      var lines := CoveredLines(files, ResolveOutputDir(workspace, kleeOutDir), Name(source), total);
      Coverage((|lines| as real) / (total as real) * 100.0, SortedLines(lines), total)
  }

  /** `calculate_coverage`. */
  method CalculateCoverage(workspace: string, kleeOutDir: string, sourceFile: string, files: Files)
    returns (c: Coverage)
    ensures var source := ResolveSourceFile(workspace, sourceFile, files);
            var total := TotalLines(files, source);
            var lines := CoveredLines(files, ResolveOutputDir(workspace, kleeOutDir), Name(source), total);
            && c.totalLines == total
            && (total == 0 ==> c == Coverage(0.0, [], 0))
            && (total > 0 ==> c.linesCovered == SortedLines(lines)
                              && c.coveragePercentage == (|lines| as real) / (total as real) * 100.0)
    ensures c == CoverageReport(workspace, kleeOutDir, sourceFile, files)
  {
    var outDir := ResolveOutputDir(workspace, kleeOutDir);
    var sourcePath := ResolveSourceFile(workspace, sourceFile, files);
    var total := TotalLines(files, sourcePath);
    if total == 0 {
      return Coverage(0.0, [], 0);
    }
    var covered := ReadCovered(files, outDir, sourcePath, total);
    var pct := (|covered| as real) / (total as real) * 100.0;
    return Coverage(pct, SortedLines(covered), total);
  }
}
