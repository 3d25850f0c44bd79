/**
  The deterministic parts of the KLEE driver: naming the bitcode file, turning the
  output directory's listing into execution paths, linking each `.err` report to its
  test case, and the driver's own full-coverage estimator. The directory listing is a
  sequence of file names (None when the directory does not exist) and file contents
  come from a `Files` map; clang and KLEE themselves are not run.
*/
module KleeRunner {
  import opened Wrappers
  import opened Strings
  import opened Numbers
  import opened Order
  import opened FilePaths
  import opened Records
  import opened KTestParser
  import CoverageAnalyzer

  // ---------------------------------------------------------------------------
  // Listings
  // ---------------------------------------------------------------------------

  /** `[f for f in names if f.startswith(prefix) and f.endswith(suffix)]`, in listing order. */
  function Matching(names: seq<string>, prefix: string, suffix: string): (r: seq<string>)
    ensures |r| <= |names|
    ensures forall x :: x in r <==> x in names && StartsWith(x, prefix) && EndsWith(x, suffix)
    decreases |names|
  {
    if names == [] then []
    else
      var rest := Matching(names[1..], prefix, suffix);
      assert forall x :: x in names <==> x == names[0] || x in names[1..];
      if StartsWith(names[0], prefix) && EndsWith(names[0], suffix) then [names[0]] + rest else rest
  }

  lemma StartsWithEmpty(x: string)
    ensures StartsWith(x, "")
  {
    assert x[..0] == "";
  }

  /** The test cases of a listing: its `.ktest` files in ascending order. */
  function TestFiles(listing: seq<string>): seq<string>
  {
    Sort(Matching(listing, "", ".ktest"))
  }

  /** The fault reports of a listing: its `.err` files in ascending order. */
  function ErrFiles(listing: seq<string>): seq<string>
  {
    Sort(Matching(listing, "", ".err"))
  }

  /** Sorting keeps exactly the elements. */
  lemma SortMembers(s: seq<string>)
    ensures forall x :: x in Sort(s) <==> x in s
  {
    forall x ensures x in Sort(s) <==> x in s {
      assert x in Sort(s) <==> x in multiset(Sort(s));
      assert x in s <==> x in multiset(s);
    }
  }

  /** The listed files ending in `suffix`, sorted: exactly those files, in ascending order. */
  lemma SortedSuffixFiles(listing: seq<string>, suffix: string)
    ensures Sorted(Sort(Matching(listing, "", suffix)))
    ensures forall x :: x in Sort(Matching(listing, "", suffix)) <==> x in listing && EndsWith(x, suffix)
  {
    SortMembers(Matching(listing, "", suffix));
    forall x {
      StartsWithEmpty(x);
    }
  }

  // ---------------------------------------------------------------------------
  // extract_paths
  // ---------------------------------------------------------------------------

  /** `test_file.replace('.ktest', '')` */
  function TestBase(test: string): string
  {
    ReplaceAll(test, ".ktest", "")
  }

  /** Whether the listing holds a report for the test: a `.err` file whose name starts with
      the test's base name. */
  function Buggy(listing: seq<string>, test: string): bool
  {
    |Matching(listing, TestBase(test), ".err")| > 0
  }

  lemma BuggyIff(listing: seq<string>, test: string)
    ensures Buggy(listing, test)
        <==> exists f :: f in listing && StartsWith(f, TestBase(test)) && EndsWith(f, ".err")
  {
    var errs := Matching(listing, TestBase(test), ".err");
    if |errs| > 0 {
      assert errs[0] in errs;
    }
  }

  /** The summary line of path `id`. */
  function Summary(id: int, buggy: bool): string
  {
    "Path " + IntToString(id) + ": " + (if buggy then "Bug Found" else "Completed")
  }

  /** The enumerate loop of `extract_paths` over the sorted test cases. */
  method PathsFor(names: seq<string>, tests: seq<string>) returns (paths: seq<Path>)
    ensures |paths| == |tests|
    ensures forall k :: 0 <= k < |tests| ==>
              paths[k] == Path(k + 1, tests[k], Buggy(names, tests[k]), Summary(k + 1, Buggy(names, tests[k])), None)
  {
    paths := [];
    for i := 0 to |tests|
      invariant paths == Enumerate(tests, i, (k, test) => PathOf(names, k, test))
    {
      var pathId := i + 1;
      var testBase := ReplaceAll(tests[i], ".ktest", "");
      var errFiles := Matching(names, testBase, ".err");
      var isBuggy := |errFiles| > 0;
      paths := paths + [Path(pathId, tests[i], isBuggy, Summary(pathId, isBuggy), None)];
    }
    EnumerateAt(tests, |tests|, (k, test) => PathOf(names, k, test));
  }

  /** The path the loop builds for the test case `test` at index `k`. */
  function PathOf(names: seq<string>, k: nat, test: string): Path
  {
    Path(k + 1, test, Buggy(names, test), Summary(k + 1, Buggy(names, test)), None)
  }

  /** `f` applied to each of the first `n` elements of `xs` with its index, as `enumerate` visits them. */
  function Enumerate<A, B>(xs: seq<A>, n: nat, f: (nat, A) -> B): seq<B>
    requires n <= |xs|
  {
    if n == 0 then [] else Enumerate(xs, n - 1, f) + [f(n - 1, xs[n - 1])]
  }

  lemma {:induction false} EnumerateAt<A, B>(xs: seq<A>, n: nat, f: (nat, A) -> B)
    requires n <= |xs|
    ensures |Enumerate(xs, n, f)| == n
    ensures forall k :: 0 <= k < n ==> Enumerate(xs, n, f)[k] == f(k, xs[k])
  {
    if n > 0 {
      EnumerateAt(xs, n - 1, f);
    }
  }

  /** `extract_paths`: one path per test case, numbered from 1 in ascending name order and
      flagged when a report belongs to it. `listing` is None when the directory is missing. */
  method ExtractPaths(listing: Option<seq<string>>) returns (paths: seq<Path>)
    ensures listing.None? ==> paths == []
    ensures listing.Some? ==> |paths| == |TestFiles(listing.value)|
    ensures listing.Some? ==> forall i :: 0 <= i < |paths| ==>
              var test := TestFiles(listing.value)[i];
              && paths[i].pathId == i + 1
              && paths[i].testName == test
              && (paths[i].isBuggy
                  <==> exists f :: f in listing.value && StartsWith(f, TestBase(test)) && EndsWith(f, ".err"))
              && paths[i].summary == Summary(i + 1, paths[i].isBuggy)
              && paths[i].lineCoverage.None?
  {
    if listing.None? {
      return [];
    }
    var tests := Sort(Matching(listing.value, "", ".ktest"));
    paths := PathsFor(listing.value, tests);
    forall i | 0 <= i < |paths| {
      BuggyIff(listing.value, tests[i]);
    }
  }

  // ---------------------------------------------------------------------------
  // run_klee
  // ---------------------------------------------------------------------------

  /** What `run_klee` returns: the output directory's name, the test cases, the bug records
      and KLEE's standard error. */
  datatype KleeRun = KleeRun(outputDirName: string, tests: seq<string>, bugs: seq<Bug>, logs: string)

  const OutputDirMissing := "KLEE failed to create output directory:\n"

  /** The test case a report belongs to: its name up to the first dot, plus ".ktest". */
  function TestFileOf(errFile: string): string
  {
    BeforeFirst(errFile, ".") + ".ktest"
  }

  /** A parsed report linked to its test case and report file. */
  function Linked(info: Bug, errFile: string): Bug
  {
    info.(testFile := Some(TestFileOf(errFile)), errFile := Some(errFile))
  }

  /** The record added when a report cannot be processed. */
  function Fallback(bcPath: string, errFile: string): Bug
  {
    NoKeys.(kind := Some("unknown error"), file := Some(ReplaceAll(bcPath, ".bc", ".c")), line := Some(0),
            message := Some("Error parsing " + errFile), errFile := Some(errFile), severity := Some("Medium"))
  }

  /** The records one report adds. An existing report gives its parsed fields. A missing one
      gives the parser's "not found" record, linked, and then the fallback record as well,
      because logging the linked record looks up its absent "type" key. */
  function ReportRecords(bcPath: string, outDir: string, errFile: string, files: Files): seq<Bug>
  {
    var path := Join(outDir, errFile);
    if path in files then [Linked(ErrorDetails(files[path]), errFile)]
    else [Linked(NoKeys.(error := Some(ErrorFileNotFound)), errFile), Fallback(bcPath, errFile)]
  }

  /** The records of the reports, report by report, in order. */
  function Concat(errFiles: seq<string>, records: string -> seq<Bug>): seq<Bug>
    decreases |errFiles|
  {
    if errFiles == [] then []
    else Concat(errFiles[..|errFiles| - 1], records) + records(errFiles[|errFiles| - 1])
  }

  lemma ConcatStep(errFiles: seq<string>, records: string -> seq<Bug>, i: nat)
    requires i < |errFiles|
    ensures Concat(errFiles[..i + 1], records) == Concat(errFiles[..i], records) + records(errFiles[i])
  {
    assert errFiles[..i + 1][..i] == errFiles[..i];
  }

  /** Each report's records name it and there is at least one: then every record names a
      report, and every report has a record. */
  lemma {:induction false} ConcatCovers(errFiles: seq<string>, records: string -> seq<Bug>)
    requires forall f :: f in errFiles ==> |records(f)| > 0 && forall b :: b in records(f) ==> b.errFile == Some(f)
    ensures forall b :: b in Concat(errFiles, records) ==> b.errFile.Some? && b.errFile.value in errFiles
    ensures forall f :: f in errFiles ==> exists b :: b in Concat(errFiles, records) && b.errFile == Some(f)
    decreases |errFiles|
  {
    if errFiles != [] {
      var init := errFiles[..|errFiles| - 1];
      var last := errFiles[|errFiles| - 1];
      assert forall f :: f in errFiles <==> f in init || f == last;
      ConcatCovers(init, records);
      assert records(last)[0] in records(last);
    }
  }

  /** One record per report: the records line up with the reports. */
  lemma {:induction false} ConcatSingles(errFiles: seq<string>, records: string -> seq<Bug>)
    requires forall f :: f in errFiles ==> |records(f)| == 1
    ensures |Concat(errFiles, records)| == |errFiles|
    ensures forall i :: 0 <= i < |errFiles| ==> Concat(errFiles, records)[i] == records(errFiles[i])[0]
    decreases |errFiles|
  {
    if errFiles != [] {
      var init := errFiles[..|errFiles| - 1];
      assert forall f :: f in init ==> f in errFiles;
      ConcatSingles(init, records);
      assert forall i :: 0 <= i < |init| ==> init[i] == errFiles[i];
    }
  }

  function ReportFn(bcPath: string, outDir: string, files: Files): string -> seq<Bug>
  {
    errFile => ReportRecords(bcPath, outDir, errFile, files)
  }

  /** The records the reports add, in order. */
  function ReportsRecords(bcPath: string, outDir: string, errFiles: seq<string>, files: Files): seq<Bug>
  {
    Concat(errFiles, ReportFn(bcPath, outDir, files))
  }

  /** The report loop of `run_klee`. */
  method CollectBugs(bcPath: string, outDir: string, errFiles: seq<string>, files: Files) returns (bugs: seq<Bug>)
    ensures bugs == ReportsRecords(bcPath, outDir, errFiles, files)
  {
    bugs := [];
    for i := 0 to |errFiles|
      invariant bugs == ReportsRecords(bcPath, outDir, errFiles[..i], files)
    {
      var errFile := errFiles[i];
      var fullPath := Join(outDir, errFile);
      var bugInfo := ParseKleeError(if fullPath in files then Some(files[fullPath]) else None);
      var testBase := BeforeFirst(errFile, ".");
      bugInfo := bugInfo.(testFile := Some(testBase + ".ktest"), errFile := Some(errFile));
      bugs := bugs + [bugInfo];
      if bugInfo.kind.None? {
        // The log line after the append reads `bug_info['type']`, which raises KeyError.
        bugs := bugs + [Fallback(bcPath, errFile)];
      }
      ConcatStep(errFiles, ReportFn(bcPath, outDir, files), i);
    }
    assert errFiles[..|errFiles|] == errFiles;
  }

  /** `run_klee` after KLEE has run: `listing` is the output directory's listing, or None
      when KLEE did not create it; `runId` stands for the random run id. */
  method RunKlee(workspace: string, bcPath: string, runId: string, listing: Option<seq<string>>,
                 stderr: string, files: Files) returns (r: Result<KleeRun>)
    ensures listing.None? ==> r == Failure(OutputDirMissing + stderr)
    ensures listing.Some? ==> r.Success?
    ensures listing.Some? ==>
              && r.value.outputDirName == "klee-out-" + runId
              && r.value.tests == TestFiles(listing.value)
              && r.value.bugs == ReportsRecords(bcPath, Join(workspace, "klee-out-" + runId), ErrFiles(listing.value), files)
              && r.value.logs == stderr
  {
    var outputDirName := "klee-out-" + runId;
    var outputDirPath := Join(workspace, outputDirName);
    if listing.None? {
      return Failure(OutputDirMissing + stderr);
    }
    var generatedTests := Sort(Matching(listing.value, "", ".ktest"));
    var errFiles := Sort(Matching(listing.value, "", ".err"));
    var detectedBugs := CollectBugs(bcPath, outputDirPath, errFiles, files);
    return Success(KleeRun(outputDirName, generatedTests, detectedBugs, stderr));
  }

  /** Every record names the report it came from, and every report has a record: no report
      is dropped. */
  lemma RecordsCoverReports(bcPath: string, outDir: string, errFiles: seq<string>, files: Files)
    ensures forall b :: b in ReportsRecords(bcPath, outDir, errFiles, files) ==> b.errFile.Some? && b.errFile.value in errFiles
    ensures forall f :: f in errFiles ==> exists b :: b in ReportsRecords(bcPath, outDir, errFiles, files) && b.errFile == Some(f)
  {
    var records := ReportFn(bcPath, outDir, files);
    forall f | f in errFiles
      ensures |records(f)| > 0 && forall b :: b in records(f) ==> b.errFile == Some(f)
    {
      ReportNamesFile(bcPath, outDir, f, files);
    }
    ConcatCovers(errFiles, records);
  }

  lemma ReportNamesFile(bcPath: string, outDir: string, errFile: string, files: Files)
    ensures var recs := ReportRecords(bcPath, outDir, errFile, files);
            |recs| > 0 && forall b :: b in recs ==> b.errFile == Some(errFile)
  {
  }

  /** When every report exists there is exactly one record per report, in report order,
      holding the parsed fields linked to the report. */
  lemma RecordsPerReport(bcPath: string, outDir: string, errFiles: seq<string>, files: Files)
    requires forall f :: f in errFiles ==> Join(outDir, f) in files
    ensures var bugs := ReportsRecords(bcPath, outDir, errFiles, files);
            && |bugs| == |errFiles|
            && forall i :: 0 <= i < |bugs| ==> bugs[i] == Linked(ErrorDetails(files[Join(outDir, errFiles[i])]), errFiles[i])
  {
    var records := ReportFn(bcPath, outDir, files);
    ConcatSingles(errFiles, records);
  }

  /** A missing report yields its linked "not found" record followed by the fallback record
      of severity Medium. */
  lemma MissingReport(bcPath: string, outDir: string, errFile: string, files: Files)
    requires Join(outDir, errFile) !in files
    ensures var recs := ReportRecords(bcPath, outDir, errFile, files);
            && |recs| == 2
            && recs[0].error == Some(ErrorFileNotFound) && recs[0].kind.None? && recs[0].errFile == Some(errFile)
            && recs[1].kind == Some("unknown error") && recs[1].line == Some(0)
            && recs[1].severity == Some("Medium") && recs[1].errFile == Some(errFile)
  {
  }

  /** A report named `<test>.<rest>`, with no dot in the test name, links to `<test>.ktest`. */
  lemma TestFileOfReport(test: string, rest: string)
    requires forall i :: 0 <= i < |test| ==> test[i] != '.'
    ensures TestFileOf(test + "." + rest) == test + ".ktest"
  {
    var s := test + "." + rest;
    FindChar(s, '.', 0, |test|);
    assert s[..|test|] == test;
  }

  // ---------------------------------------------------------------------------
  // compile_to_bitcode
  // ---------------------------------------------------------------------------

  /** The bitcode path `compile_to_bitcode` produces: every ".c" of the file name removed,
      then ".bc" appended, under the workspace. */
  function BitcodePath(workspace: string, filename: string): (r: string)
    ensures EndsWith(r, ".bc")
  {
    var name := ReplaceAll(filename, ".c", "") + ".bc";
    assert name[|name| - 3..] == ".bc";
    Join(workspace, name)
  }

  /** With no ".c" in `base`, the leftmost ".c" of `base + ".c" + rest` is the one after
      `base`: it is replaced and the replacement carries on in `rest`. */
  lemma {:induction false} ReplaceCFirst(base: string, rest: string, rep: string)
    requires !Contains(base, ".c")
    ensures ReplaceAll(base + ".c" + rest, ".c", rep) == base + rep + ReplaceAll(rest, ".c", rep)
    decreases |base|
  {
    var s := base + ".c" + rest;
    if |base| == 0 {
      assert s[..2] == ".c";
      assert s[2..] == rest;
    } else {
      ContainsTail(base, ".c");
      ReplaceCFirst(base[1..], rest, rep);
      NoCAtStart(base);
      ReplaceCStep(base, rest, rep, ReplaceAll(rest, ".c", rep));
    }
  }

  /** A first character that does not start ".c" is kept; `t` is what the replacement
      makes of `rest`. */
  lemma ReplaceCStep(base: string, rest: string, rep: string, t: string)
    requires |base| > 0 && (base + ".c")[..2] != ".c"
    requires ReplaceAll(base[1..] + ".c" + rest, ".c", rep) == base[1..] + rep + t
    ensures ReplaceAll(base + ".c" + rest, ".c", rep) == base + rep + t
  {
    SplitFirst(base, rest, rep);
    KeepFirst(base + ".c" + rest, rep, base[1..] + rep, t, base + rep);
  }

  /** How `base + ".c" + rest` and `base + rep` come apart after the first character. */
  lemma SplitFirst(base: string, rest: string, rep: string)
    requires |base| > 0
    ensures var s := base + ".c" + rest;
            && s[..2] == (base + ".c")[..2]
            && s[1..] == base[1..] + ".c" + rest
            && base + rep == [s[0]] + (base[1..] + rep)
  {
    var s := base + ".c" + rest;
    assert s[1..] == base[1..] + ".c" + rest;
    assert [s[0]] + base[1..] == base;
  }

  /** The same step over plain values: the rest's replacement `a + t` gains the first
      character, making `b + t`. */
  lemma KeepFirst(s: string, rep: string, a: string, t: string, b: string)
    requires |s| >= 2 && s[..2] != ".c"
    requires ReplaceAll(s[1..], ".c", rep) == a + t
    requires b == [s[0]] + a
    ensures ReplaceAll(s, ".c", rep) == b + t
  {
    ReplaceAllKeep(s, ".c", rep);
    assert [s[0]] + (a + t) == b + t;
  }

  /** A string without ".c" followed by ".c" does not start with ".c", unless it is empty. */
  lemma NoCAtStart(base: string)
    requires |base| > 0 && !Contains(base, ".c")
    ensures (base + ".c")[..2] != ".c"
  {
    var s := base + ".c";
    if |base| >= 2 {
      assert !OccursAt(base, ".c", 0);
      assert base[..2] == s[..2];
    } else {
      assert s[1] == '.';
    }
  }

  /** A start that is not the pattern keeps its first character. */
  lemma ReplaceAllKeep(s: string, pat: string, rep: string)
    requires |pat| > 0 && |s| >= |pat| && s[..|pat|] != pat
    ensures ReplaceAll(s, pat, rep) == [s[0]] + ReplaceAll(s[1..], pat, rep)
  {
  }

  /** Replacing ".c" in `base.c` changes only the suffix when `base` holds no ".c". */
  lemma ReplaceCSuffix(base: string, rep: string)
    requires !Contains(base, ".c")
    ensures ReplaceAll(base + ".c", ".c", rep) == base + rep
  {
    ReplaceCFirst(base, "", rep);
    assert base + ".c" + "" == base + ".c";
    assert base + rep + "" == base + rep;
  }

  /** The bitcode of `base.c` is `base.bc` in the workspace, for a base holding no ".c". */
  lemma BitcodeOfSource(workspace: string, base: string)
    requires !Contains(base, ".c")
    ensures BitcodePath(workspace, base + ".c") == Join(workspace, base + ".bc")
  {
    ReplaceCSuffix(base, "");
    assert base + "" == base;
  }

  /** `sep.join(parts)` */
  function JoinedWith(parts: seq<string>, sep: string): (r: string)
    requires |parts| > 0
    ensures StartsWith(r, parts[0])
    decreases |parts|
  {
    if |parts| == 1 then parts[0] else parts[0] + sep + JoinedWith(parts[1..], sep)
  }

  /** `filename.replace(".c", rep)` replaces every ".c": a name made of ".c"-free parts
      joined by ".c" becomes the parts joined by `rep`. */
  lemma {:induction false} ReplaceEveryC(parts: seq<string>, rep: string)
    requires |parts| > 0 && forall k :: 0 <= k < |parts| ==> !Contains(parts[k], ".c")
    ensures ReplaceAll(JoinedWith(parts, ".c"), ".c", rep) == JoinedWith(parts, rep)
    decreases |parts|
  {
    if |parts| > 1 {
      TailFreeOfC(parts);
      ReplaceEveryC(parts[1..], rep);
      ReplaceEveryCStep(parts, rep);
    }
  }

  lemma TailFreeOfC(parts: seq<string>)
    requires |parts| > 0 && forall k :: 0 <= k < |parts| ==> !Contains(parts[k], ".c")
    ensures forall k :: 0 <= k < |parts[1..]| ==> !Contains(parts[1..][k], ".c")
  {
    forall k | 0 <= k < |parts[1..]|
      ensures !Contains(parts[1..][k], ".c")
    {
      assert parts[1..][k] == parts[k + 1];
    }
  }

  /** One part, then the others. */
  lemma ReplaceEveryCStep(parts: seq<string>, rep: string)
    requires |parts| > 1 && !Contains(parts[0], ".c")
    requires ReplaceAll(JoinedWith(parts[1..], ".c"), ".c", rep) == JoinedWith(parts[1..], rep)
    ensures ReplaceAll(JoinedWith(parts, ".c"), ".c", rep) == JoinedWith(parts, rep)
  {
    var head, tail := parts[0], parts[1..];
    var rest := JoinedWith(tail, ".c");
    calc {
      ReplaceAll(JoinedWith(parts, ".c"), ".c", rep);
      ReplaceAll(head + ".c" + rest, ".c", rep);
      { ReplaceCFirst(head, rest, rep); }
      head + rep + ReplaceAll(rest, ".c", rep);
      head + rep + JoinedWith(tail, rep);
      JoinedWith(parts, rep);
    }
  }

  /** The bitcode path keeps only the ".c"-free parts of the file name, then adds ".bc":
      `a.c.b.c` compiles to `ab.bc` in the workspace. */
  lemma BitcodeDropsEveryC(workspace: string, parts: seq<string>)
    requires |parts| > 0 && forall k :: 0 <= k < |parts| ==> !Contains(parts[k], ".c")
    ensures BitcodePath(workspace, JoinedWith(parts, ".c")) == Join(workspace, JoinedWith(parts, "") + ".bc")
  {
    ReplaceEveryC(parts, "");
  }

  /** An inner ".c" goes too: `b1.cb2.c` compiles to `b1b2.bc`, not to `b1.cb2.bc`. */
  lemma BitcodeDropsInnerC(workspace: string, b1: string, b2: string)
    requires !Contains(b1, ".c") && !Contains(b2, ".c")
    ensures BitcodePath(workspace, b1 + ".c" + b2 + ".c") == Join(workspace, b1 + b2 + ".bc")
  {
    calc {
      ReplaceAll(b1 + ".c" + (b2 + ".c"), ".c", "");
      { ReplaceCFirst(b1, b2 + ".c", ""); }
      b1 + "" + ReplaceAll(b2 + ".c", ".c", "");
      { ReplaceCSuffix(b2, ""); }
      b1 + "" + (b2 + "");
    }
    assert b1 + ".c" + (b2 + ".c") == b1 + ".c" + b2 + ".c";
    assert b1 + "" + (b2 + "") == b1 + b2;
  }

  // ---------------------------------------------------------------------------
  // The driver's CoverageAnalyzer
  // ---------------------------------------------------------------------------

  /** `list(range(1, n + 1))` */
  function AllLines(n: nat): (r: seq<nat>)
    ensures |r| == n
    ensures forall i :: 0 <= i < n ==> r[i] == i + 1
  {
    seq(n, i requires 0 <= i < n => i + 1)
  }

  /** The driver's `CoverageAnalyzer.calculate_coverage`: every line of an existing,
      non-empty source counts as covered. `source` is the source's lines, or None when it
      does not exist. */
  function FullCoverage(source: Option<seq<string>>): (c: Coverage)
    ensures source.None? || source.value == [] ==> c == Coverage(0.0, [], 0)
    ensures source.Some? && source.value != [] ==> c.totalLines == |source.value| && c.coveragePercentage == 100.0
  {
    if source.None? then Coverage(0.0, [], 0)
    else
      var total := |source.value|;
      if total == 0 then Coverage(0.0, [], 0) else Coverage(100.0, AllLines(total), total)
  }

  /** The full estimate is what the artifact-based analyzer reports when every line is
      covered: the ascending listing of lines 1 to n and their share of n lines. */
  lemma FullCoverageAgrees(source: seq<string>)
    requires source != []
    ensures var c := FullCoverage(Some(source));
            var all := CoverageAnalyzer.Elements(AllLines(|source|));
            && c.linesCovered == CoverageAnalyzer.SortedLines(all)
            && c.coveragePercentage == (|all| as real) / (c.totalLines as real) * 100.0
  {
    CoverageAnalyzer.SortedOfAscending(AllLines(|source|));
    WholeShare(|source|);
  }

  lemma WholeShare(n: nat)
    requires n > 0
    ensures (n as real) / (n as real) * 100.0 == 100.0
  {
  }
}
