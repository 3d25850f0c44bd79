/**
  The dictionaries that flow between the backend's components, as datatypes. A field
  of type Option is a key that a dictionary may lack (`None` = absent), so that
  `d.get(key, default)` is `d.field.GetOr(default)`.
*/
module Records {
  import opened Wrappers

  /** The files the backend reads, by path, as their lines (`readlines()`); a path outside
      the map does not exist. */
  type Files = map<string, seq<string>>

  /** A bug dictionary, as `parse_klee_error` and `run_klee` build it and the API enriches it.
      `kind` is the "type" key. */
  datatype Bug = Bug(
    kind: Option<string>,
    file: Option<string>,
    line: Option<int>,
    message: Option<string>,
    assemblyLine: Option<int>,
    parseError: Option<string>,
    error: Option<string>,
    testFile: Option<string>,
    errFile: Option<string>,
    severity: Option<string>,
    pathId: Option<int>)

  /** The dictionary with no keys. */
  const NoKeys := Bug(None, None, None, None, None, None, None, None, None, None, None)

  /** A path dictionary built by `extract_paths`; `lineCoverage` is added later. */
  datatype Path = Path(
    pathId: int,
    testName: string,
    isBuggy: bool,
    summary: string,
    lineCoverage: Option<seq<int>>)

  /** What a coverage analyzer returns. The percentage is kept as an exact ratio. */
  datatype Coverage = Coverage(coveragePercentage: real, linesCovered: seq<int>, totalLines: nat)

  /** The "metadata" block of an analysis result; `rawTests` and `logs` are present only in
      the result the API endpoint builds. */
  datatype Metadata = Metadata(
    kleeOutputDir: string,
    totalLines: nat,
    linesCovered: seq<int>,
    rawTests: Option<seq<string>>,
    logs: Option<string>)

  /** The unified per-program result. */
  datatype AnalysisResult = AnalysisResult(
    programName: string,
    totalPaths: nat,
    exploredPaths: nat,
    executionTime: real,
    coveragePercentage: real,
    paths: seq<Path>,
    bugs: seq<Bug>,
    metadata: Metadata)

  /** A path entry of a client-supplied payload: only the keys the report code reads. */
  datatype PathView = PathView(pathId: Option<int>, isBuggy: Option<bool>)

  /** The "metadata" block of a client-supplied payload. */
  datatype PayloadMetadata = PayloadMetadata(totalLines: Option<int>, linesCovered: Option<seq<int>>)

  /** A client-supplied analysis result (the body of the "result" key, or the payload itself). */
  datatype ResultBody = ResultBody(
    programName: Option<string>,
    bugs: Option<seq<Bug>>,
    paths: Option<seq<PathView>>,
    coveragePercentage: Option<real>,
    executionTime: Option<real>,
    metadata: Option<PayloadMetadata>)

  /** A client-supplied analysis payload: its "result" key, if any, and its own top-level keys. */
  datatype AnalysisPayload = AnalysisPayload(result: Option<ResultBody>, top: ResultBody)

  /** A client-supplied repair result; `otherKeys` records whether it has keys besides these. */
  datatype RepairPayload = RepairPayload(
    validationStatus: Option<string>,
    suggestedCode: Option<string>,
    validationReport: Option<seq<Bug>>,
    llmModel: Option<string>,
    otherKeys: bool)
  {
    /** Python's truth value of the dictionary: false only for `{}`. */
    predicate Truthy()
    {
      validationStatus.Some? || suggestedCode.Some? || validationReport.Some? || llmModel.Some? || otherKeys
    }
  }
}
