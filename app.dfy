/**
  The decisions the HTTP API makes around the analysis: severity classification, the
  bug-to-path link, enrichment of a KLEE run into an analysis result, the outcome of a
  repair attempt, the final report summary and the path check of the test-case endpoint.
  Routing and the framework are not modelled; a handler's HTTP error is a `Response`.
*/
module App {
  import opened Wrappers
  import opened Strings
  import opened Numbers
  import opened Order
  import opened FilePaths
  import opened Records
  import opened KTestParser
  import CoverageAnalyzer
  import KleeRunner
  import ResultBuilder

  /** A handler's answer: its value, or the HTTP error it raises. */
  datatype Response<T> = Ok(value: T) | HttpError(status: int, detail: string)

  // ---------------------------------------------------------------------------
  // classify_bug
  // ---------------------------------------------------------------------------

  const CriticalKeywords: seq<string> := ["overflow", "ptr.err", "ptr", "null", "memory", "free", "use-after"]
  const HighKeywords: seq<string> := ["divide by zero", "div.err", "division", "assert.err", "assertion"]
  const MediumKeywords: seq<string> := ["abort", "warning", "overflow", "underflow"]
  const Severities: seq<string> := ["Critical", "High", "Medium", "Low"]

  /** `any(keyword in text for keyword in keywords)` */
  predicate AnyIn(keywords: seq<string>, text: string)
  {
    exists k :: k in keywords && Contains(text, k)
  }

  /** `classify_bug`: the first keyword group found in the lower-cased type decides. */
  function ClassifyBug(bugType: string): (r: string)
    ensures r in Severities
    ensures r == "Critical" <==> AnyIn(CriticalKeywords, Lower(bugType))
    ensures r == "Low" <==> !AnyIn(CriticalKeywords + HighKeywords + MediumKeywords, Lower(bugType))
  {
    var t := Lower(bugType);
    if AnyIn(CriticalKeywords, t) then "Critical"
    else if AnyIn(HighKeywords, t) then "High"
    else if AnyIn(MediumKeywords, t) then "Medium"
    else "Low"
  }

  /** Any type mentioning "overflow" is Critical: the "overflow" keyword of the Medium group
      never decides. */
  lemma OverflowIsCritical(bugType: string)
    requires Contains(Lower(bugType), "overflow")
    ensures ClassifyBug(bugType) == "Critical"
  {
    assert "overflow" in CriticalKeywords;
  }

  /** Medium is decided by "abort", "warning" or "underflow" alone, once no Critical or High
      keyword is present. */
  lemma MediumIff(bugType: string)
    ensures var t := Lower(bugType);
            ClassifyBug(bugType) == "Medium"
            <==> !AnyIn(CriticalKeywords, t) && !AnyIn(HighKeywords, t)
                 && (Contains(t, "abort") || Contains(t, "warning") || Contains(t, "underflow"))
  {
    var t := Lower(bugType);
    if AnyIn(MediumKeywords, t) && !AnyIn(CriticalKeywords, t) {
      var k :| k in MediumKeywords && Contains(t, k);
      assert k != "overflow" by {
        assert "overflow" in CriticalKeywords;
      }
    }
    assert "abort" in MediumKeywords && "warning" in MediumKeywords && "underflow" in MediumKeywords;
  }

  lemma {:induction false} LowerIdempotent(s: string)
    ensures Lower(Lower(s)) == Lower(s)
  {
    forall i | 0 <= i < |s| ensures Lower(Lower(s))[i] == Lower(s)[i] {
      assert Lower(s)[i] == LowerChar(s[i]);
    }
  }

  /** The classification ignores letter case. */
  lemma ClassifyIgnoresCase(bugType: string)
    ensures ClassifyBug(Lower(bugType)) == ClassifyBug(bugType)
  {
    LowerIdempotent(bugType);
  }

  // ---------------------------------------------------------------------------
  // find_bug_path
  // ---------------------------------------------------------------------------

  /** `find_bug_path`: the number after the first "test" in the bug's "err_file" names the
      path when some path has that id; otherwise path 1. */
  function FindBugPath(bug: Bug, paths: seq<Path>): (r: int)
    ensures r == 1 || HasPath(paths, r)
    ensures var m := FirstNumberAfter(bug.errFile.GetOr(""), "test");
            (m.None? || !HasPath(paths, m.value)) ==> r == 1
    ensures var m := FirstNumberAfter(bug.errFile.GetOr(""), "test");
            m.Some? && HasPath(paths, m.value) ==> r == m.value
  {
    match FirstNumberAfter(bug.errFile.GetOr(""), "test")
    case None => 1
    case Some(n) => if HasPath(paths, n) then n else 1
  }

  /** Some path has id `n`. */
  predicate HasPath(paths: seq<Path>, n: int)
  {
    exists p :: p in paths && p.pathId == n
  }

  /** A report named `test<digits><rest>` links to the path whose id is the digits' value
      (leading zeros aside), when there is one. */
  lemma ReportLinksToPath(bug: Bug, paths: seq<Path>, zeros: nat, n: nat, rest: string)
    requires bug.errFile == Some("test" + Zeros(zeros) + NatToString(n) + rest)
    requires rest == [] || !IsDigit(rest[0])
    requires HasPath(paths, n)
    ensures FindBugPath(bug, paths) == n
  {
    PaddedNumberAfter("test", zeros, n, rest);
  }

  // ---------------------------------------------------------------------------
  // analyze_program
  // ---------------------------------------------------------------------------

  /** A bug as `analyze_program` enriches it: its severity from its type ("Unknown" when it
      has none) and its path, 1 when there are no paths. */
  function Classified(bug: Bug, paths: seq<Path>): (c: Bug)
    ensures c.severity == Some(ClassifyBug(bug.kind.GetOr("Unknown")))
    ensures c.severity.Some? && c.severity.value in Severities
    ensures c.severity.value == "Critical" <==> AnyIn(CriticalKeywords, Lower(bug.kind.GetOr("Unknown")))
    ensures c.pathId.Some? && (c.pathId.value == 1 || HasPath(paths, c.pathId.value))
    ensures c.(severity := bug.severity, pathId := bug.pathId) == bug
  {
    bug.(severity := Some(ClassifyBug(bug.kind.GetOr("Unknown"))),
         pathId := Some(if paths != [] then FindBugPath(bug, paths) else 1))
  }

  /** The bug loop of `analyze_program`. */
  method ClassifyBugs(bugs: seq<Bug>, paths: seq<Path>) returns (classified: seq<Bug>)
    ensures |classified| == |bugs|
    ensures forall i :: 0 <= i < |bugs| ==> classified[i] == Classified(bugs[i], paths)
    ensures forall i :: 0 <= i < |bugs| ==>
              && classified[i].severity.Some? && classified[i].severity.value in Severities
              && classified[i].pathId.Some?
              && (classified[i].pathId.value == 1 || HasPath(paths, classified[i].pathId.value))
              && classified[i].(severity := bugs[i].severity, pathId := bugs[i].pathId) == bugs[i]
  {
    classified := [];
    for i := 0 to |bugs|
      invariant |classified| == i
      invariant forall k :: 0 <= k < i ==> classified[k] == Classified(bugs[k], paths)
    {
      var bug := bugs[i];
      var bugType := bug.kind.GetOr("Unknown");
      bug := bug.(severity := Some(ClassifyBug(bugType)));
      bug := bug.(pathId := Some(if paths != [] then FindBugPath(bug, paths) else 1));
      classified := classified + [bug];
    }
  }

  /** What `analyze_program` returns for a run whose output directory `outDir` has the listing
      `listing`, test files `tests`, bug records `bugs` and log `logs`: one path per test file,
      numbered from 1, each with the covered lines; the bugs classified against those paths;
      and the coverage figures in the result and in its metadata. */
  predicate Assembled(result: AnalysisResult, workspace: string, coverageWorkspace: string, bcPath: string,
                      outDir: string, tests: seq<string>, bugs: seq<Bug>, logs: string, listing: seq<string>,
                      executionTime: real, files: Files)
  {
    var cov := CoverageAnalyzer.CoverageReport(coverageWorkspace, outDir, ReplaceAll(Join(workspace, bcPath), ".bc", ".c"), files);
    && result.programName == Stem(bcPath) + ".c"
    && result.totalPaths == result.exploredPaths == |result.paths| == |KleeRunner.TestFiles(listing)|
    && (forall i :: 0 <= i < |result.paths| ==>
          result.paths[i] == RunPath(listing, i).(lineCoverage := Some(cov.linesCovered)))
    && |result.bugs| == |bugs|
    && (forall i :: 0 <= i < |bugs| ==> result.bugs[i] == Classified(bugs[i], result.paths))
    && result.coveragePercentage == cov.coveragePercentage
    && result.executionTime == executionTime
    && result.metadata == Metadata(outDir, cov.totalLines, cov.linesCovered, Some(tests), Some(logs))
  }

  /** The path `extract_paths` makes of the `i`-th test of the listing, in ascending order:
      id `i + 1`, that test, its buggy flag and its summary, and no coverage yet. */
  function RunPath(listing: seq<string>, i: nat): Path
    requires i < |KleeRunner.TestFiles(listing)|
  {
    KleeRunner.PathOf(listing, i, KleeRunner.TestFiles(listing)[i])
  }

  /** The paths of the listing and the bugs classified against them. */
  method PathsAndBugs(listing: seq<string>, bugs: seq<Bug>) returns (found: seq<Path>, classified: seq<Bug>)
    ensures |found| == |KleeRunner.TestFiles(listing)|
    ensures forall i :: 0 <= i < |found| ==> found[i] == RunPath(listing, i)
    ensures forall i :: 0 <= i < |found| ==> found[i].pathId == i + 1
    ensures |classified| == |bugs|
    ensures forall i :: 0 <= i < |bugs| ==> classified[i] == Classified(bugs[i], found)
  {
    found := KleeRunner.ExtractPaths(Some(listing));
    forall i | 0 <= i < |found|
      ensures found[i] == RunPath(listing, i)
    {
      KleeRunner.BuggyIff(listing, KleeRunner.TestFiles(listing)[i]);
    }
    classified := ClassifyBugs(bugs, found);
  }

  /** The result `analyze_program` assembles from a KLEE run whose output directory
      `outDir` (under the workspace) has the listing `listing`. */
  method AssembleResult(workspace: string, coverageWorkspace: string, bcPath: string, outDir: string,
                        tests: seq<string>, bugs: seq<Bug>, logs: string, listing: seq<string>,
                        executionTime: real, files: Files)
    returns (result: AnalysisResult)
    ensures Assembled(result, workspace, coverageWorkspace, bcPath, outDir, tests, bugs, logs, listing, executionTime, files)
  {
    var coverageData := CoverageOf(workspace, coverageWorkspace, bcPath, outDir, files);
    var paths, classifiedBugs := CoveredPathsAndBugs(listing, bugs, coverageData.linesCovered);
    result := AnalysisResult(
      Stem(bcPath) + ".c", |paths|, |paths|, executionTime, coverageData.coveragePercentage,
      paths, classifiedBugs,
      Metadata(outDir, coverageData.totalLines, coverageData.linesCovered, Some(tests), Some(logs)));
    AssembledFrom(result, workspace, coverageWorkspace, bcPath, outDir, tests, bugs, logs, listing, executionTime,
                  files, coverageData);
  }

  /** The facts that make a result `Assembled`, with the coverage report named `cov`. */
  lemma AssembledFrom(result: AnalysisResult, workspace: string, coverageWorkspace: string, bcPath: string,
                      outDir: string, tests: seq<string>, bugs: seq<Bug>, logs: string, listing: seq<string>,
                      executionTime: real, files: Files, cov: Coverage)
    requires cov == CoverageAnalyzer.CoverageReport(coverageWorkspace, outDir, ReplaceAll(Join(workspace, bcPath), ".bc", ".c"), files)
    requires result.programName == Stem(bcPath) + ".c"
    requires result.totalPaths == result.exploredPaths == |result.paths| == |KleeRunner.TestFiles(listing)|
    requires forall i :: 0 <= i < |result.paths| ==>
               result.paths[i] == RunPath(listing, i).(lineCoverage := Some(cov.linesCovered))
    requires |result.bugs| == |bugs|
    requires forall i :: 0 <= i < |bugs| ==> result.bugs[i] == Classified(bugs[i], result.paths)
    requires result.coveragePercentage == cov.coveragePercentage && result.executionTime == executionTime
    requires result.metadata == Metadata(outDir, cov.totalLines, cov.linesCovered, Some(tests), Some(logs))
    ensures Assembled(result, workspace, coverageWorkspace, bcPath, outDir, tests, bugs, logs, listing, executionTime, files)
  {
  }

  /** The coverage of the C file next to the bitcode `bcPath` (its ".bc" replaced by ".c").
      The analyzer resolves the output directory against its own workspace,
      `coverageWorkspace`, which need not be the driver's. */
  method CoverageOf(workspace: string, coverageWorkspace: string, bcPath: string, outDir: string, files: Files)
    returns (c: Coverage)
    ensures c == CoverageAnalyzer.CoverageReport(coverageWorkspace, outDir, ReplaceAll(Join(workspace, bcPath), ".bc", ".c"), files)
  {
    var sourceFile := ReplaceAll(Join(workspace, bcPath), ".bc", ".c");
    c := CoverageAnalyzer.CalculateCoverage(coverageWorkspace, outDir, sourceFile, files);
  }

  /** The paths of the listing, each covering `lines`, and the bugs classified against them. */
  method CoveredPathsAndBugs(listing: seq<string>, bugs: seq<Bug>, lines: seq<int>)
    returns (paths: seq<Path>, classified: seq<Bug>)
    ensures |paths| == |KleeRunner.TestFiles(listing)|
    ensures forall i :: 0 <= i < |paths| ==> paths[i] == RunPath(listing, i).(lineCoverage := Some(lines))
    ensures forall i :: 0 <= i < |paths| ==> paths[i].pathId == i + 1 && paths[i].lineCoverage == Some(lines)
    ensures |classified| == |bugs|
    ensures forall i :: 0 <= i < |bugs| ==> classified[i] == Classified(bugs[i], paths)
  {
    var found;
    found, classified := PathsAndBugs(listing, bugs);
    paths := CoverPaths(found, lines);
    ClassifiedOnSameIds(bugs, found, paths);
  }

  /** The coverage loop of `analyze_program`: every path gets the same covered lines. */
  method CoverPaths(found: seq<Path>, lines: seq<int>) returns (paths: seq<Path>)
    ensures |paths| == |found|
    ensures forall i :: 0 <= i < |found| ==> paths[i] == found[i].(lineCoverage := Some(lines))
  {
    var a := new Path[|found|](i requires 0 <= i < |found| => found[i]);
    ResultBuilder.SetLineCoverage(a, lines);
    paths := a[..];
  }

  /** Classification reads only the path ids, so giving the paths coverage changes nothing. */
  lemma ClassifiedOnSameIds(bugs: seq<Bug>, a: seq<Path>, b: seq<Path>)
    requires |a| == |b| && forall i :: 0 <= i < |a| ==> a[i].pathId == b[i].pathId
    ensures forall i :: 0 <= i < |bugs| ==> Classified(bugs[i], a) == Classified(bugs[i], b)
  {
    forall n ensures HasPath(a, n) <==> HasPath(b, n) {
      if p :| p in a && p.pathId == n {
        var i :| 0 <= i < |a| && a[i] == p;
        assert b[i] in b;
      }
      if p :| p in b && p.pathId == n {
        var i :| 0 <= i < |b| && b[i] == p;
        assert a[i] in a;
      }
    }
  }

  /** `analyze_program` once the bitcode has been compiled and KLEE has run: `listing` is the
      output directory's listing (None when KLEE did not create it), `runId` the random run
      id and `executionTime` the measured time. `workspace` is the driver's workspace
      (`os.path.abspath("workspace")`); `coverageWorkspace` is the coverage analyzer's own
      (the `WORKSPACE_DIR` environment variable, else the resolved "workspace"). */
  method AnalyzeProgram(workspace: string, coverageWorkspace: string, bcPath: string, runId: string,
                        listing: Option<seq<string>>, stderr: string, executionTime: real, files: Files)
    returns (r: Response<AnalysisResult>)
    ensures Join(workspace, bcPath) !in files ==> r == HttpError(404, "Bitcode not found")
    ensures Join(workspace, bcPath) in files && listing.None? ==> r == HttpError(500, KleeRunner.OutputDirMissing + stderr)
    ensures Join(workspace, bcPath) in files && listing.Some? ==>
              var fullBc := Join(workspace, bcPath);
              var outDir := "klee-out-" + runId;
              var records := KleeRunner.ReportsRecords(fullBc, Join(workspace, outDir), KleeRunner.ErrFiles(listing.value), files);
              && r.Ok?
              && Assembled(r.value, workspace, coverageWorkspace, bcPath, outDir, KleeRunner.TestFiles(listing.value), records,
                           stderr, listing.value, executionTime, files)
  {
    var fullBcPath := Join(workspace, bcPath);
    if fullBcPath !in files {
      return HttpError(404, "Bitcode not found");
    }
    var run := KleeRunner.RunKlee(workspace, fullBcPath, runId, listing, stderr, files);
    if run.Failure? {
      return HttpError(500, run.error);
    }
    var result := AssembleResult(workspace, coverageWorkspace, bcPath, run.value.outputDirName, run.value.tests, run.value.bugs,
                                 run.value.logs, listing.value, executionTime, files);
    return Ok(result);
  }

  // ---------------------------------------------------------------------------
  // repair_code
  // ---------------------------------------------------------------------------

  /** How validating a candidate went: KLEE ran on it and reported these bugs, or compiling
      or running it raised an error with this text. */
  datatype Validation = Ran(bugs: seq<Bug>) | Raised(error: string)

  /** The answer of `/repair`. */
  datatype RepairResponse =
    | AiFailed(message: string, details: string)
    | RepairValidated(suggestedCode: string, validationStatus: string, validationReport: seq<Bug>, llmModel: string)

  const AiFailedMessage := "AI generation failed. Check API key or rate limits."
  const LlmModel := "Gemini 2.5 Flash"

  /** Some reported bug's type (empty when absent) contains the original bug's type. */
  predicate StillExists(originalType: string, bugs: seq<Bug>)
  {
    exists b :: b in bugs && Contains(b.kind.GetOr(""), originalType)
  }

  /** The validation status of a candidate that was compiled and checked. */
  function ValidationStatus(originalType: string, validation: Validation): string
  {
    match validation
    case Raised(e) => "Validation Failed (Compilation/Runtime Error: " + e + ")"
    case Ran(bugs) =>
      if bugs == [] then "Validation Success"
      else if StillExists(originalType, bugs) then "Validation Failed (Original Bug Still Exists)"
      else "Validation Failed (New Regression Introduced)"
  }

  /** `repair_code` after the model has answered with `candidate` and, when the answer is
      code, the candidate has been validated; `bugType` is the "type" of the bug details. */
  function RepairOutcome(candidate: string, bugType: Option<string>, validation: Validation): (r: RepairResponse)
    ensures r.AiFailed? <==> StartsWith(candidate, "API Error") || StartsWith(candidate, "Repair failed")
    ensures r.AiFailed? ==> r.details == candidate
    ensures r.RepairValidated? ==> r.suggestedCode == candidate && r.llmModel == LlmModel
    ensures r.RepairValidated? ==> r.validationReport == (if validation.Ran? then validation.bugs else [])
    ensures r.RepairValidated? ==> r.validationStatus == ValidationStatus(bugType.GetOr("Unknown"), validation)
  {
    if StartsWith(candidate, "API Error") || StartsWith(candidate, "Repair failed") then
      AiFailed(AiFailedMessage, candidate)
    else
      RepairValidated(candidate, ValidationStatus(bugType.GetOr("Unknown"), validation),
                      if validation.Ran? then validation.bugs else [], LlmModel)
  }

  /** A failed generation is reported the same whatever validation would have given: the
      candidate is never compiled. */
  lemma AiFailureIgnoresValidation(candidate: string, bugType: Option<string>, v1: Validation, v2: Validation)
    requires StartsWith(candidate, "API Error") || StartsWith(candidate, "Repair failed")
    ensures RepairOutcome(candidate, bugType, v1) == RepairOutcome(candidate, bugType, v2)
  {
  }

  const RaisedPrefix := "Validation Failed (Compilation/Runtime Error: "

  /** The status is success exactly when validation ran and found no bug; it reports the
      original bug exactly when some bug's type contains the original type, a regression
      exactly when bugs were found but none of that type, and a raised error, with its text,
      exactly when compiling or running raised. */
  lemma StatusCases(originalType: string, validation: Validation)
    ensures ValidationStatus(originalType, validation) == "Validation Success" <==> validation == Ran([])
    ensures ValidationStatus(originalType, validation) == "Validation Failed (Original Bug Still Exists)"
            <==> validation.Ran? && validation.bugs != [] && StillExists(originalType, validation.bugs)
    ensures ValidationStatus(originalType, validation) == "Validation Failed (New Regression Introduced)"
            <==> validation.Ran? && validation.bugs != [] && !StillExists(originalType, validation.bugs)
    ensures StartsWith(ValidationStatus(originalType, validation), RaisedPrefix) <==> validation.Raised?
    ensures validation.Raised? ==>
              ValidationStatus(originalType, validation) == RaisedPrefix + validation.error + ")"
  {
    var s := ValidationStatus(originalType, validation);
    if validation.Raised? {
      assert s[11] == 'F' && s[19] == 'C';
      assert s[..|RaisedPrefix|] == RaisedPrefix;
    } else {
      assert |s| < |RaisedPrefix|;
    }
  }

  /** The temporary name a candidate is compiled under: every ".c" of the original name
      replaced by `_repaired_<hex>.c`, where `hex` stands for four random hex digits. */
  function RepairedFileName(originalFilename: string, hex: string): string
  {
    ReplaceAll(originalFilename, ".c", "_repaired_" + hex + ".c")
  }

  lemma RepairedName(base: string, hex: string)
    requires !Contains(base, ".c")
    ensures RepairedFileName(base + ".c", hex) == base + "_repaired_" + hex + ".c"
  {
    KleeRunner.ReplaceCSuffix(base, "_repaired_" + hex + ".c");
  }

  /** Every ".c" of the original name is replaced, not just the extension: `a.cb.c` becomes
      `a_repaired_<hex>.cb_repaired_<hex>.c`. */
  lemma RepairedEveryC(parts: seq<string>, hex: string)
    requires |parts| > 0 && forall k :: 0 <= k < |parts| ==> !Contains(parts[k], ".c")
    ensures RepairedFileName(KleeRunner.JoinedWith(parts, ".c"), hex)
            == KleeRunner.JoinedWith(parts, "_repaired_" + hex + ".c")
  {
    KleeRunner.ReplaceEveryC(parts, "_repaired_" + hex + ".c");
  }

  // ---------------------------------------------------------------------------
  // generate_final_report
  // ---------------------------------------------------------------------------

  datatype ProgramDetails = ProgramDetails(name: string, originalCode: string, totalLines: int)
  datatype AnalysisSummary = AnalysisSummary(status: string, bugsFound: nat, maxSeverity: string,
                                             coveragePercentage: real, executionTime: real)
  datatype DetailedResults = DetailedResults(bugs: seq<Bug>, paths: seq<PathView>, linesCovered: seq<int>)
  datatype RepairSummary = RepairSummary(status: string, suggestedCode: string, validationReport: seq<Bug>, llmModel: string)
  datatype FinalReport = FinalReport(program: ProgramDetails, summary: AnalysisSummary,
                                     details: DetailedResults, repair: Option<RepairSummary>)

  const NoResult := ResultBody(None, None, None, None, None, None)

  /** The severities of the bugs, "Low" standing in for a missing one. */
  function SeveritiesOf(bugs: seq<Bug>): (s: seq<string>)
    ensures |s| == |bugs| && forall i :: 0 <= i < |bugs| ==> s[i] == bugs[i].severity.GetOr("Low")
  {
    seq(|bugs|, i requires 0 <= i < |bugs| => bugs[i].severity.GetOr("Low"))
  }

  /** `max(severities, default="None")`: the greatest severity as a string, not by rank. */
  function MaxSeverity(bugs: seq<Bug>): (m: string)
    ensures bugs == [] ==> m == "None"
    ensures bugs != [] ==> m in SeveritiesOf(bugs) && forall s :: s in SeveritiesOf(bugs) ==> LessEq(s, m)
  {
    if bugs == [] then "None" else Max(SeveritiesOf(bugs))
  }

  /** `generate_final_report`: the counts and summary come from the "result" key of the
      initial analysis (missing keys take their defaults); the repair summary is present only
      for a non-empty repair result. */
  function GenerateFinalReport(initial: AnalysisPayload, repair: Option<RepairPayload>, originalCode: string): (r: FinalReport)
    ensures var bugs := initial.result.GetOr(NoResult).bugs.GetOr([]);
            r.summary.bugsFound == |bugs| && r.summary.maxSeverity == MaxSeverity(bugs)
    ensures r.repair.Some? <==> repair.Some? && repair.value.Truthy()
  {
    var result := initial.result.GetOr(NoResult);
    var metadata := result.metadata.GetOr(PayloadMetadata(None, None));
    var bugs := result.bugs.GetOr([]);
    FinalReport(
      ProgramDetails(result.programName.GetOr("N/A"), originalCode, metadata.totalLines.GetOr(0)),
      AnalysisSummary("Completed", |bugs|, MaxSeverity(bugs),
                      result.coveragePercentage.GetOr(0.0), result.executionTime.GetOr(0.0)),
      DetailedResults(bugs, result.paths.GetOr([]), metadata.linesCovered.GetOr([])),
      if repair.Some? && repair.value.Truthy() then
        Some(RepairSummary(repair.value.validationStatus.GetOr("N/A"), repair.value.suggestedCode.GetOr("N/A"),
                           repair.value.validationReport.GetOr([]), repair.value.llmModel.GetOr("N/A")))
      else None)
  }

  /** Among the four levels, "Medium" is the string maximum: one Medium bug makes the
      summary "Medium" even next to a Critical one. */
  lemma MediumDominates(bugs: seq<Bug>, i: nat)
    requires i < |bugs| && bugs[i].severity == Some("Medium")
    requires forall b :: b in bugs ==> b.severity.Some? ==> b.severity.value in Severities
    ensures MaxSeverity(bugs) == "Medium"
  {
    var m := MaxSeverity(bugs);
    var sevs := SeveritiesOf(bugs);
    assert sevs[i] == "Medium";
    assert LessEq("Medium", m);
    var j :| 0 <= j < |bugs| && sevs[j] == m;
    assert bugs[j] in bugs;
    assert m in Severities;
    assert LessEq(m, "Medium");
    LessEqAntisymmetric("Medium", m);
  }

  /** The summary says "Critical" only when every bug is Critical. */
  lemma CriticalOnlyIfAll(bugs: seq<Bug>)
    requires forall b :: b in bugs ==> b.severity.Some? ==> b.severity.value in Severities
    requires MaxSeverity(bugs) == "Critical"
    ensures forall b :: b in bugs ==> b.severity == Some("Critical")
  {
    var sevs := SeveritiesOf(bugs);
    forall b | b in bugs ensures b.severity == Some("Critical") {
      var i :| 0 <= i < |bugs| && bugs[i] == b;
      assert sevs[i] in sevs;
      var s := sevs[i];
      assert LessEq(s, "Critical");
    }
  }

  // ---------------------------------------------------------------------------
  // get_test_result
  // ---------------------------------------------------------------------------

  /** `get_test_result`: `normalize` stands for `os.path.normpath`; `ktests` holds the bytes
      of the files under the workspace and `dirs` its directories. A normalised path
      containing ".." is refused before any file is looked at; a directory exists, so it
      passes the existence check and then fails to open. */
  method GetTestResult(workspace: string, filePath: string, normalize: string -> string,
                       ktests: map<string, seq<Byte>>, dirs: set<string>) returns (r: Response<Outcome>)
    ensures Contains(normalize(filePath), "..") ==> r == HttpError(403, "Access denied")
    ensures !Contains(normalize(filePath), "..") && Join(workspace, normalize(filePath)) !in ktests
            && Join(workspace, normalize(filePath)) !in dirs ==>
              r == HttpError(404, "File not found: " + normalize(filePath))
    ensures !Contains(normalize(filePath), "..") && Join(workspace, normalize(filePath)) in dirs ==>
              r == HttpError(500, IsDirectoryText(Join(workspace, normalize(filePath))))
    ensures !Contains(normalize(filePath), "..") && Join(workspace, normalize(filePath)) !in dirs
            && Join(workspace, normalize(filePath)) in ktests ==>
              var outcome := Decode(ktests[Join(workspace, normalize(filePath))]);
              (outcome == StructError ==> r.HttpError? && r.status == 500) && (outcome != StructError ==> r == Ok(outcome))
  {
    var safePath := normalize(filePath);
    if Contains(safePath, "..") {
      return HttpError(403, "Access denied");
    }
    var fullPath := Join(workspace, safePath);
    if fullPath !in ktests && fullPath !in dirs {
      return HttpError(404, "File not found: " + safePath);
    }
    if fullPath in dirs {
      return HttpError(500, IsDirectoryText(fullPath));
    }
    var outcome := ParseKTest(Some(ktests[fullPath]));
    if outcome == StructError {
      return HttpError(500, StructErrorText);
    }
    return Ok(outcome);
  }

  /** The text of the `IsADirectoryError` that opening a directory raises. */
  function IsDirectoryText(path: string): string
  {
    "[Errno 21] Is a directory: '" + path + "'"
  }

  /** The text of the `struct.error` a short prefix read raises. */
  const StructErrorText := "unpack requires a buffer of 4 bytes"
}
