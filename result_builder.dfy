/**
  `ResultBuilder.build_analysis_result`: links each bug to a path, gives every path the
  covered lines, and assembles the unified result. The caller's bug and path lists are
  arrays that the builder updates in place.
*/
module ResultBuilder {
  import opened Wrappers
  import opened Strings
  import opened Numbers
  import opened FilePaths
  import opened Records
  import opened CoverageAnalyzer

  /** The path id of the first path, in list order, whose test name contains `key`, or 1. */
  function FirstContaining(paths: seq<Path>, key: string): (r: int)
    ensures (exists i :: 0 <= i < |paths| && Contains(paths[i].testName, key) && r == paths[i].pathId
                         && forall j :: 0 <= j < i ==> !Contains(paths[j].testName, key))
         || (r == 1 && forall i :: 0 <= i < |paths| ==> !Contains(paths[i].testName, key))
    decreases |paths|
  {
    if paths == [] then 1
    else if Contains(paths[0].testName, key) then paths[0].pathId
    else
      var r := FirstContaining(paths[1..], key);
      assert forall i :: 1 <= i < |paths| ==> paths[i] == paths[1..][i - 1];
      r
  }

  /** The test name a report number refers to: "test" and the number padded to six digits. */
  function TestKey(n: nat): string
  {
    "test" + ZeroPad(n, 6)
  }

  /** `_find_bug_path`: the number after the first "test" in the bug's "file" field picks
      the first path whose test name contains its six-digit form; otherwise path 1. The
      linked path is always path 1 or one of the listed paths. */
  function FindBugPath(bug: Bug, paths: seq<Path>): (r: int)
    ensures r == 1 || exists p :: p in paths && p.pathId == r
    ensures FirstNumberAfter(bug.file.GetOr(""), "test").None? ==> r == 1
    ensures var m := FirstNumberAfter(bug.file.GetOr(""), "test");
            m.Some? ==>
              || (exists i :: 0 <= i < |paths| && Contains(paths[i].testName, TestKey(m.value))
                              && r == paths[i].pathId
                              && forall j :: 0 <= j < i ==> !Contains(paths[j].testName, TestKey(m.value)))
              || (r == 1 && forall i :: 0 <= i < |paths| ==> !Contains(paths[i].testName, TestKey(m.value)))
  {
    match FirstNumberAfter(bug.file.GetOr(""), "test")
    case None => 1
    case Some(n) =>
      FirstContainingListed(paths, TestKey(n));
      FirstContaining(paths, TestKey(n))
  }

  /** The path the search picks is path 1 or a listed path. */
  lemma FirstContainingListed(paths: seq<Path>, key: string)
    ensures FirstContaining(paths, key) == 1 || exists p :: p in paths && p.pathId == FirstContaining(paths, key)
  {
    var r := FirstContaining(paths, key);
    if r != 1 {
      var i :| 0 <= i < |paths| && Contains(paths[i].testName, key) && r == paths[i].pathId;
      assert paths[i] in paths;
    }
  }

  /** A file naming `test<digits>` picks the first path whose test name holds that test's
      six-digit form, however many leading zeros the digits carry. */
  lemma LeadingZerosIgnored(bug: Bug, paths: seq<Path>, zeros: nat, n: nat, rest: string)
    requires bug.file == Some("test" + Zeros(zeros) + NatToString(n) + rest)
    requires rest == [] || !IsDigit(rest[0])
    ensures FindBugPath(bug, paths) == FirstContaining(paths, TestKey(n))
  {
    PaddedNumberAfter("test", zeros, n, rest);
  }

  /** A file naming no `test<digits>`, such as the source path a KLEE report gives, links
      the bug to path 1. */
  lemma NoTestNumber(bug: Bug, paths: seq<Path>)
    requires forall i :: !NumberAt(bug.file.GetOr(""), "test", i)
    ensures FindBugPath(bug, paths) == 1
  {
  }

  /** The path-linking loop of `build_analysis_result`. */
  method LinkBugs(bugs: array<Bug>, paths: seq<Path>)
    modifies bugs
    ensures forall i :: 0 <= i < bugs.Length ==> bugs[i] == old(bugs[i]).(pathId := Some(FindBugPath(old(bugs[i]), paths)))
  {
    for i := 0 to bugs.Length
      invariant forall k :: 0 <= k < i ==> bugs[k] == old(bugs[k]).(pathId := Some(FindBugPath(old(bugs[k]), paths)))
      invariant forall k :: i <= k < bugs.Length ==> bugs[k] == old(bugs[k])
    {
      bugs[i] := bugs[i].(pathId := Some(FindBugPath(bugs[i], paths)));
    }
  }

  /** The coverage loop of `build_analysis_result`. */
  method SetLineCoverage(paths: array<Path>, lines: seq<int>)
    modifies paths
    ensures forall i :: 0 <= i < paths.Length ==> paths[i] == old(paths[i]).(lineCoverage := Some(lines))
  {
    for i := 0 to paths.Length
      invariant forall k :: 0 <= k < i ==> paths[k] == old(paths[k]).(lineCoverage := Some(lines))
      invariant forall k :: i <= k < paths.Length ==> paths[k] == old(paths[k])
    {
      paths[i] := paths[i].(lineCoverage := Some(lines));
    }
  }

  /** `build_analysis_result`: the coverage of `sourceFile` read from `kleeOutDir`, every bug
      linked to a path, every path given the covered lines, and the result assembled. */
  method BuildAnalysisResult(workspace: string, sourceFile: string, kleeOutDir: string,
                             paths: array<Path>, bugs: array<Bug>, executionTime: real, files: Files)
    returns (result: AnalysisResult)
    modifies paths, bugs
    ensures var cov := CoverageReport(workspace, kleeOutDir, sourceFile, files);
            && (forall i :: 0 <= i < bugs.Length ==>
                  bugs[i] == old(bugs[i]).(pathId := Some(FindBugPath(old(bugs[i]), old(paths[..])))))
            && (forall i :: 0 <= i < paths.Length ==> paths[i] == old(paths[i]).(lineCoverage := Some(cov.linesCovered)))
            && result == AnalysisResult(Name(sourceFile), paths.Length, paths.Length, executionTime,
                                        cov.coveragePercentage, paths[..], bugs[..],
                                        Metadata(kleeOutDir, cov.totalLines, cov.linesCovered, None, None))
  {
    var coverageData := CalculateCoverage(workspace, kleeOutDir, sourceFile, files);
    LinkBugs(bugs, paths[..]);
    SetLineCoverage(paths, coverageData.linesCovered);
    result := AnalysisResult(
      Name(sourceFile), paths.Length, paths.Length, executionTime, coverageData.coveragePercentage,
      paths[..], bugs[..],
      Metadata(kleeOutDir, coverageData.totalLines, coverageData.linesCovered, None, None));
  }
}
